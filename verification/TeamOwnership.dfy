/** Many workers sharing one pool: each follows acquire, mark_running, release
    (src/execution/dispatcher.rs) while settings change underneath (src/team/manager.rs).
    Every locked method is one atomic step; runs are arbitrary interleavings. */
module TeamOwnership {
  import opened Options
  import opened TeamPool
  import opened Text

  // ---------- the pool methods as updates of the id table ----------

  lemma UpdatedMembers(pool: Pool, i: nat, a: Subagent)
    requires DistinctIds(pool) && i < |pool| && a.id == pool[i].id
    ensures DistinctIds(pool[i := a])
    ensures forall b :: b in pool[i := a] <==> b == a || (b in pool && b.id != a.id)
  {
    var after := pool[i := a];
    forall j | 0 <= j < |pool| && j != i
      ensures after[j] == pool[j] && pool[j] in after && pool[j].id != a.id
    {
    }
    assert after[i] == a;
  }

  lemma TableUpdate(pool: Pool, i: nat, a: Subagent)
    requires DistinctIds(pool) && i < |pool| && a.id == pool[i].id
    ensures DistinctIds(pool[i := a])
    ensures Table(pool[i := a]) == Table(pool)[a.id := a]
  {
    TableEntries(pool);
    UpdatedMembers(pool, i, a);
    TableFromEntries(pool[i := a], Table(pool)[a.id := a]);
  }

  lemma TablePush(pool: Pool, a: Subagent)
    requires DistinctIds(pool) && a.id !in Table(pool)
    ensures DistinctIds(pool + [a])
    ensures Table(pool + [a]) == Table(pool)[a.id := a]
  {
    var after := pool + [a];
    TableEntries(pool);
    forall j | 0 <= j < |pool|
      ensures after[j].id != a.id
    {
      assert after[j] == pool[j] && pool[j] in pool;
    }
    assert forall b :: b in after <==> b in pool || b == a;
    TableFromEntries(after, Table(pool)[a.id := a]);
  }

  lemma RemovedMembers(pool: Pool, i: nat)
    requires DistinctIds(pool) && i < |pool|
    ensures DistinctIds(pool[..i] + pool[i + 1..])
    ensures forall b :: b in pool[..i] + pool[i + 1..] <==> b in pool && b.id != pool[i].id
  {
    var after := pool[..i] + pool[i + 1..];
    forall j | 0 <= j < |after|
      ensures after[j] == pool[if j < i then j else j + 1]
    {
    }
    RemovedHas(pool, i);
  }

  lemma RemovedHas(pool: Pool, i: nat)
    requires DistinctIds(pool) && i < |pool|
    ensures forall b :: b in pool[..i] + pool[i + 1..] <==> b in pool && b.id != pool[i].id
  {
    var after := pool[..i] + pool[i + 1..];
    assert pool == pool[..i] + [pool[i]] + pool[i + 1..];
    forall b | b in after
      ensures b.id != pool[i].id
    {
      var j :| 0 <= j < |after| && after[j] == b;
      assert b == pool[if j < i then j else j + 1];
    }
  }

  lemma TableRemove(pool: Pool, i: nat)
    requires DistinctIds(pool) && i < |pool|
    ensures DistinctIds(pool[..i] + pool[i + 1..])
    ensures Table(pool[..i] + pool[i + 1..]) == Table(pool) - {pool[i].id}
  {
    TableEntries(pool);
    RemovedMembers(pool, i);
    TableFromEntries(pool[..i] + pool[i + 1..], Table(pool) - {pool[i].id});
  }

  lemma IndexInTable(pool: Pool, id: AgentId)
    requires DistinctIds(pool)
    ensures id in Table(pool) <==> IndexOf(pool, id) < |pool|
    ensures id in Table(pool) ==> Table(pool)[id] == pool[IndexOf(pool, id)]
  {
    TableEntries(pool);
    var i := IndexOf(pool, id);
    if i < |pool| {
      assert pool[i] in pool;
    }
  }

  lemma AcquireEffect(pool: Pool, next: nat, settings: Settings, suggested: nat, task: string, role: Option<string>)
    requires DistinctIds(pool) && Ephemeral(next) !in Table(pool)
    ensures var (after, next', acquired) := AfterAcquire(pool, next, settings, suggested, task, role);
      && DistinctIds(after)
      && (acquired.None? ==> after == pool && next' == next)
      && (acquired.Some? ==>
          var a := acquired.value.agent;
          && Table(after) == Table(pool)[a.id := a]
          && a.state == Assigned && a.currentTask == Some(task)
          && (if acquired.value.spawned
              then a.id == Ephemeral(next) && a.ephemeral && next' == next + 1
                   && MaySpawn(pool, settings, suggested) && after == pool + [a]
              else a.id in Table(pool) && Table(pool)[a.id].state.Idle? && next' == next
                   && a.ephemeral == Table(pool)[a.id].ephemeral))
  {
    var i := FirstFit(pool, role);
    if i < |pool| {
      TableUpdate(pool, i, pool[i].(state := Assigned, currentTask := Some(task)));
      TableEntries(pool);
      assert pool[i] in pool;
    } else {
      TablePush(pool, Spawned(settings, next, task, role));
    }
  }

  lemma MarkEffect(pool: Pool, id: AgentId)
    requires DistinctIds(pool) && id in Table(pool)
    ensures DistinctIds(Marked(pool, id))
    ensures Table(Marked(pool, id)) == Table(pool)[id := Table(pool)[id].(state := Running)]
  {
    IndexInTable(pool, id);
    TableUpdate(pool, IndexOf(pool, id), Table(pool)[id].(state := Running));
  }

  lemma DestroyEffect(pool: Pool, id: AgentId, failed: bool)
    requires DistinctIds(pool) && id in Table(pool) && Table(pool)[id].ephemeral
    ensures DistinctIds(Released(pool, id, failed))
    ensures Table(Released(pool, id, failed)) == Table(pool) - {id}
  {
    IndexInTable(pool, id);
    TableRemove(pool, IndexOf(pool, id));
  }

  function Freed(a: Subagent, failed: bool): Subagent {
    a.(state := if failed then Failed else Idle, currentTask := None)
  }

  lemma FreeEffect(pool: Pool, id: AgentId, failed: bool)
    requires DistinctIds(pool) && id in Table(pool) && !Table(pool)[id].ephemeral
    ensures DistinctIds(Released(pool, id, failed))
    ensures Table(Released(pool, id, failed)) == Table(pool)[id := Freed(Table(pool)[id], failed)]
  {
    IndexInTable(pool, id);
    TableUpdate(pool, IndexOf(pool, id), Freed(Table(pool)[id], failed));
  }

  lemma ReleaseEffect(pool: Pool, id: AgentId, failed: bool)
    requires DistinctIds(pool) && id in Table(pool)
    ensures DistinctIds(Released(pool, id, failed))
    ensures var a := Table(pool)[id];
      Table(Released(pool, id, failed)) ==
        if a.ephemeral then Table(pool) - {id}
        else Table(pool)[id := a.(state := if failed then Failed else Idle, currentTask := None)]
  {
    if Table(pool)[id].ephemeral {
      DestroyEffect(pool, id, failed);
    } else {
      FreeEffect(pool, id, failed);
    }
  }

  // ---------- reconcile_persistent_pool ----------

  predicate FlagsMatchIds(m: map<AgentId, Subagent>) {
    forall id :: id in m ==> m[id].id == id && (m[id].ephemeral <==> id.Ephemeral?)
  }

  // What the persistent agent with number i becomes.
  function Provided(m: map<AgentId, Subagent>, settings: Settings, i: nat): Subagent
    requires settings.Valid() && i > 0
  {
    if Persistent(i) !in m then FreshAgent(settings, i)
    else if m[Persistent(i)].currentTask.None? then m[Persistent(i)].(role := RoleFor(settings, i))
    else m[Persistent(i)]
  }

  lemma ProvideEffect(pool: Pool, settings: Settings, i: nat)
    requires DistinctIds(pool) && FlagsMatchIds(Table(pool)) && settings.Valid() && i > 0
    ensures DistinctIds(Provide(pool, settings, i))
    ensures Table(Provide(pool, settings, i)) == Table(pool)[Persistent(i) := Provided(Table(pool), settings, i)]
  {
    TableEntries(pool);
    IndexInTable(pool, Persistent(i));
    var k, j := IndexOfPersistent(pool, i), IndexOf(pool, Persistent(i));
    assert forall x :: 0 <= x < |pool| ==> pool[x] in pool;
    assert k == j;
    if k == |pool| {
      TablePush(pool, FreshAgent(settings, i));
    } else if pool[k].currentTask.None? {
      TableUpdate(pool, k, pool[k].(role := RoleFor(settings, i)));
    }
  }

  // The table after providing agents 1 to n.
  ghost predicate IsProvided(m: map<AgentId, Subagent>, after: map<AgentId, Subagent>, settings: Settings, n: nat)
    requires settings.Valid()
  {
    && (forall id :: id in after <==> id in m || (id.Persistent? && 1 <= id.n <= n))
    && (forall id :: id in after ==>
          after[id] == if id.Persistent? && 1 <= id.n <= n then Provided(m, settings, id.n) else m[id])
  }

  lemma ProvideOneMore(m: map<AgentId, Subagent>, before: map<AgentId, Subagent>, settings: Settings, n: nat)
    requires settings.Valid() && n > 0 && FlagsMatchIds(before) && IsProvided(m, before, settings, n - 1)
    ensures FlagsMatchIds(before[Persistent(n) := Provided(before, settings, n)])
    ensures IsProvided(m, before[Persistent(n) := Provided(before, settings, n)], settings, n)
  {
    assert Provided(before, settings, n) == Provided(m, settings, n);
  }

  // A pool that agents 1 to n have been provided to.
  ghost predicate HasProvided(m: map<AgentId, Subagent>, pool: Pool, settings: Settings, n: nat)
    requires settings.Valid()
  {
    DistinctIds(pool) && FlagsMatchIds(Table(pool)) && IsProvided(m, Table(pool), settings, n)
  }

  lemma ProvideStep(m: map<AgentId, Subagent>, before: Pool, after: Pool, settings: Settings, n: nat)
    requires settings.Valid() && n > 0 && HasProvided(m, before, settings, n - 1)
    requires after == Provide(before, settings, n)
    ensures HasProvided(m, after, settings, n)
  {
    ProvideEffect(before, settings, n);
    ProvideOneMore(m, Table(before), settings, n);
  }

  lemma ProvideAllEffect(m: map<AgentId, Subagent>, pool: Pool, settings: Settings, n: nat)
    requires settings.Valid() && HasProvided(m, pool, settings, 0)
    ensures HasProvided(m, ProvideAll(pool, settings, n), settings, n)
  {
    var p := pool;
    for i := 0 to n
      invariant p == ProvideAll(pool, settings, i)
      invariant HasProvided(m, p, settings, i)
    {
      var next := Provide(p, settings, i + 1);
      ProvideStep(m, p, next, settings, i + 1);
      p := next;
    }
  }

  lemma {:induction false} RetainEffect(pool: Pool, settings: Settings)
    requires DistinctIds(pool)
    ensures DistinctIds(Retain(pool, settings))
    ensures forall a :: a in Retain(pool, settings) <==> a in pool && Kept(settings, a)
  {
    if pool != [] {
      var n := |pool| - 1;
      RetainEffect(pool[..n], settings);
      assert pool == pool[..n] + [pool[n]];
      forall a | a in Retain(pool[..n], settings)
        ensures a.id != pool[n].id
      {
        var j :| 0 <= j < n && pool[..n][j] == a;
      }
    }
  }

  // The declared effect of a reconciliation: exactly the in-range persistent agents and the
  // agents kept for their task; free in-range agents get their role, nothing else changes.
  ghost predicate IsReconciled(m: map<AgentId, Subagent>, after: map<AgentId, Subagent>, settings: Settings)
    requires settings.Valid()
  {
    && (forall id :: id in after <==> InRange(settings, id) || (id in m && Kept(settings, m[id])))
    && (forall id :: id in after ==>
          after[id] == if InRange(settings, id) then Provided(m, settings, id.n) else m[id])
  }

  // Rearranging the agents changes neither the ids nor the table.
  lemma RearrangedTable(pool: Pool, other: Pool)
    requires DistinctIds(pool) && NoRepeats(other) && forall a :: a in other <==> a in pool
    ensures DistinctIds(other) && Table(other) == Table(pool)
  {
    TableEntries(pool);
    forall i, j | 0 <= i < j < |other|
      ensures other[i].id != other[j].id
    {
      assert other[i] in pool && other[j] in pool;
    }
    TableFromEntries(other, Table(pool));
  }

  lemma SortKeepsTable(pool: Pool)
    requires DistinctIds(pool)
    ensures DistinctIds(Sort(pool, AgentName)) && Table(Sort(pool, AgentName)) == Table(pool)
  {
    SortFacts(pool, AgentName);
    assert NoRepeats(pool);
    RearrangedTable(pool, Sort(pool, AgentName));
  }

  lemma RetainTable(pool: Pool, settings: Settings)
    requires DistinctIds(pool)
    ensures DistinctIds(Retain(pool, settings))
    ensures Table(Retain(pool, settings)) ==
      map id | id in Table(pool) && Kept(settings, Table(pool)[id]) :: Table(pool)[id]
  {
    TableEntries(pool);
    RetainEffect(pool, settings);
    TableFromEntries(Retain(pool, settings),
                     map id | id in Table(pool) && Kept(settings, Table(pool)[id]) :: Table(pool)[id]);
  }

  lemma KeptOfProvided(m: map<AgentId, Subagent>, provided: map<AgentId, Subagent>, after: map<AgentId, Subagent>,
                       settings: Settings)
    requires settings.Valid() && FlagsMatchIds(provided)
    requires IsProvided(m, provided, settings, settings.teamSize)
    requires after == map id | id in provided && Kept(settings, provided[id]) :: provided[id]
    ensures FlagsMatchIds(after) && IsReconciled(m, after, settings)
  {
  }

  lemma ReconcileEffect(pool: Pool, settings: Settings)
    requires DistinctIds(pool) && FlagsMatchIds(Table(pool)) && settings.Valid()
    ensures DistinctIds(Reconciled(pool, settings)) && FlagsMatchIds(Table(Reconciled(pool, settings)))
    ensures IsReconciled(Table(pool), Table(Reconciled(pool, settings)), settings)
    ensures Sorted(Reconciled(pool, settings), AgentName)
  {
    var provided := ProvideAll(pool, settings, settings.teamSize);
    var kept := Retain(provided, settings);
    ProvideAllEffect(Table(pool), pool, settings, settings.teamSize);
    RetainTable(provided, settings);
    KeptOfProvided(Table(pool), Table(provided), Table(kept), settings);
    SortKeepsTable(kept);
    SortFacts(kept, AgentName);
  }

  // ---------- workers and runs ----------

  // What a run of run_one_task holds between acquire_for_task and release.
  datatype Holding = Holding(agent: AgentId, task: string, running: bool, spawned: bool)

  datatype World = World(settings: Settings, pool: Pool, next: nat, workers: map<nat, Holding>)

  datatype Step =
    | StartRun(worker: nat, task: string, role: Option<string>, suggested: nat)
    | StartWork(worker: nat)
    | FinishRun(worker: nat, failed: bool)
    | ChangeSettings(settings: Settings)
    | Reconcile

  predicate Enabled(w: World, s: Step) {
    match s
    case StartRun(k, _, _, _) => k !in w.workers
    case StartWork(k) => k in w.workers && !w.workers[k].running
    case FinishRun(k, _) => k in w.workers && w.workers[k].running
    case ChangeSettings(next) => next.Valid()
    case Reconcile => w.settings.Valid()
  }

  function Next(w: World, s: Step): World
    requires Enabled(w, s)
  {
    match s
    case StartRun(k, task, role, suggested) =>
      var (pool, next, acquired) := AfterAcquire(w.pool, w.next, w.settings, suggested, task, role);
      var workers := if acquired.None? then w.workers
                     else w.workers[k := Holding(acquired.value.agent.id, task, false, acquired.value.spawned)];
      World(w.settings, pool, next, workers)
    case StartWork(k) =>
      w.(pool := Marked(w.pool, w.workers[k].agent), workers := w.workers[k := w.workers[k].(running := true)])
    case FinishRun(k, failed) =>
      w.(pool := Released(w.pool, w.workers[k].agent, failed), workers := w.workers - {k})
    case ChangeSettings(next) => w.(settings := next)
    case Reconcile => w.(pool := Reconciled(w.pool, w.settings))
  }

  function InitialWorld(settings: Settings): World
    requires settings.Valid()
  {
    World(settings, InitialPool(settings), 1, map[])
  }

  // The world after a schedule of steps by any workers; a step that is not enabled does nothing.
  function WorldAfter(w: World, steps: seq<Step>): World {
    if steps == [] then w
    else
      var before := WorldAfter(w, steps[..|steps| - 1]);
      if Enabled(before, steps[|steps| - 1]) then Next(before, steps[|steps| - 1]) else before
  }

  // ---------- the invariant ----------

  predicate AgentOk(id: AgentId, a: Subagent, next: nat) {
    && a.id == id
    && (a.ephemeral <==> id.Ephemeral?)
    && (id.Ephemeral? ==> id.n < next && a.currentTask.Some?)
    && (a.currentTask.Some? <==> a.state.Assigned? || a.state.Running?)
  }

  // The worker's agent is in the pool, carries the worker's task, and is in the state the
  // worker's progress demands; it is ephemeral exactly when this worker spawned it.
  predicate Owns(m: map<AgentId, Subagent>, h: Holding) {
    && h.agent in m
    && m[h.agent].currentTask == Some(h.task)
    && m[h.agent].state == (if h.running then Running else Assigned)
    && (h.spawned <==> h.agent.Ephemeral?)
  }

  ghost predicate IsHeld(workers: map<nat, Holding>, id: AgentId) {
    exists k :: k in workers && workers[k].agent == id
  }

  ghost predicate OwnershipInvariant(m: map<AgentId, Subagent>, next: nat, workers: map<nat, Holding>) {
    && (forall id :: id in m ==> AgentOk(id, m[id], next))
    && (forall k :: k in workers ==> Owns(m, workers[k]))
    && (forall j, k :: j in workers && k in workers && j != k ==> workers[j].agent != workers[k].agent)
    && (forall id :: id in m && m[id].currentTask.Some? ==> IsHeld(workers, id))
  }

  ghost predicate WorldInvariant(w: World) {
    && w.settings.Valid()
    && DistinctIds(w.pool)
    && OwnershipInvariant(Table(w.pool), w.next, w.workers)
  }

  lemma InitialWorldIsGood(settings: Settings)
    requires settings.Valid()
    ensures WorldInvariant(InitialWorld(settings))
  {
    var pool := InitialPool(settings);
    TableEntries(pool);
    forall id | id in Table(pool)
      ensures AgentOk(id, Table(pool)[id], 1) && Table(pool)[id].currentTask.None?
    {
      var i :| 0 <= i < |pool| && pool[i] == Table(pool)[id];
    }
  }

  lemma AcquireKeepsOwnership(m: map<AgentId, Subagent>, next: nat, workers: map<nat, Holding>,
                              k: nat, a: Subagent, task: string, spawned: bool)
    requires OwnershipInvariant(m, next, workers) && k !in workers
    requires a.state == Assigned && a.currentTask == Some(task)
    requires if spawned then a.id == Ephemeral(next) && a.ephemeral
             else a.id in m && m[a.id].state.Idle? && a.ephemeral == m[a.id].ephemeral
    ensures OwnershipInvariant(m[a.id := a], if spawned then next + 1 else next,
                               workers[k := Holding(a.id, task, false, spawned)])
  {
    var after, workers' := m[a.id := a], workers[k := Holding(a.id, task, false, spawned)];
    assert a.id in m ==> AgentOk(a.id, m[a.id], next);
    assert forall j :: j in workers ==> Owns(m, workers[j]);
    assert forall j :: j in workers ==> workers[j].agent != a.id;
    forall id | id in after && after[id].currentTask.Some?
      ensures IsHeld(workers', id)
    {
      if id == a.id {
        assert workers'[k].agent == id;
      } else {
        var j :| j in workers && workers[j].agent == id;
        assert workers'[j].agent == id;
      }
    }
  }

  lemma MarkKeepsOwnership(m: map<AgentId, Subagent>, next: nat, workers: map<nat, Holding>, k: nat)
    requires OwnershipInvariant(m, next, workers) && k in workers
    ensures workers[k].agent in m
    ensures OwnershipInvariant(m[workers[k].agent := m[workers[k].agent].(state := Running)], next,
                               workers[k := workers[k].(running := true)])
  {
    assert Owns(m, workers[k]);
    var workers' := workers[k := workers[k].(running := true)];
    forall id | IsHeld(workers, id)
      ensures IsHeld(workers', id)
    {
      var j :| j in workers && workers[j].agent == id;
      assert workers'[j].agent == id;
    }
  }

  lemma ReleaseKeepsOwnership(m: map<AgentId, Subagent>, next: nat, workers: map<nat, Holding>, k: nat,
                              after: map<AgentId, Subagent>, failed: bool)
    requires OwnershipInvariant(m, next, workers) && k in workers
    requires var id := workers[k].agent;
             id in m && after == if m[id].ephemeral then m - {id}
             else m[id := m[id].(state := if failed then Failed else Idle, currentTask := None)]
    ensures OwnershipInvariant(after, next, workers - {k})
  {
    assert Owns(m, workers[k]);
    forall id | id in after && after[id].currentTask.Some?
      ensures IsHeld(workers - {k}, id)
    {
      var j :| j in workers && workers[j].agent == id;
      assert j in workers - {k};
    }
  }

  lemma ReconcileKeepsOwnership(m: map<AgentId, Subagent>, next: nat, workers: map<nat, Holding>,
                                after: map<AgentId, Subagent>, settings: Settings)
    requires OwnershipInvariant(m, next, workers) && settings.Valid() && IsReconciled(m, after, settings)
    ensures OwnershipInvariant(after, next, workers)
  {
    forall id | id in after
      ensures AgentOk(id, after[id], next)
      ensures after[id].currentTask.Some? ==> id in m && after[id] == m[id]
    {
      assert id in m ==> AgentOk(id, m[id], next);
    }
    forall k | k in workers
      ensures Owns(after, workers[k])
    {
      assert Owns(m, workers[k]);
    }
  }

  lemma StepKeepsInvariant(w: World, s: Step)
    requires WorldInvariant(w) && Enabled(w, s)
    ensures WorldInvariant(Next(w, s))
  {
    var m := Table(w.pool);
    match s
    case StartRun(k, task, role, suggested) =>
      assert Ephemeral(w.next) in m ==> AgentOk(Ephemeral(w.next), m[Ephemeral(w.next)], w.next);
      AcquireEffect(w.pool, w.next, w.settings, suggested, task, role);
      var (pool, next, acquired) := AfterAcquire(w.pool, w.next, w.settings, suggested, task, role);
      if acquired.Some? {
        AcquireKeepsOwnership(m, w.next, w.workers, k, acquired.value.agent, task, acquired.value.spawned);
      }
    case StartWork(k) =>
      MarkKeepsOwnership(m, w.next, w.workers, k);
      MarkEffect(w.pool, w.workers[k].agent);
    case FinishRun(k, failed) =>
      assert Owns(m, w.workers[k]);
      ReleaseEffect(w.pool, w.workers[k].agent, failed);
      ReleaseKeepsOwnership(m, w.next, w.workers, k, Table(Next(w, s).pool), failed);
    case ChangeSettings(next) =>
    case Reconcile =>
      FlagsFromInvariant(w);
      ReconcileEffect(w.pool, w.settings);
      ReconcileKeepsOwnership(m, w.next, w.workers, Table(Next(w, s).pool), w.settings);
  }

  lemma FlagsFromInvariant(w: World)
    requires WorldInvariant(w)
    ensures FlagsMatchIds(Table(w.pool))
  {
    forall id | id in Table(w.pool)
      ensures Table(w.pool)[id].id == id && (Table(w.pool)[id].ephemeral <==> id.Ephemeral?)
    {
      assert AgentOk(id, Table(w.pool)[id], w.next);
    }
  }

  // Over every interleaving of any number of workers and settings changes.
  lemma {:induction false} RunKeepsInvariant(w: World, steps: seq<Step>)
    requires WorldInvariant(w)
    ensures WorldInvariant(WorldAfter(w, steps))
  {
    if steps != [] {
      var before, s := WorldAfter(w, steps[..|steps| - 1]), steps[|steps| - 1];
      RunKeepsInvariant(w, steps[..|steps| - 1]);
      if Enabled(before, s) {
        StepKeepsInvariant(before, s);
      }
    }
  }

  // Exclusive ownership: two workers never share an agent, and the agents with a task are
  // exactly the held ones.
  lemma ExclusiveOwnership(settings: Settings, steps: seq<Step>)
    requires settings.Valid()
    ensures var w := WorldAfter(InitialWorld(settings), steps);
      && DistinctIds(w.pool)
      && (forall k :: k in w.workers ==> Owns(Table(w.pool), w.workers[k]))
      && (forall j, k :: j in w.workers && k in w.workers && j != k ==> w.workers[j].agent != w.workers[k].agent)
      && (forall a :: a in w.pool && a.currentTask.Some? ==> IsHeld(w.workers, a.id))
  {
    InitialWorldIsGood(settings);
    RunKeepsInvariant(InitialWorld(settings), steps);
    TableEntries(WorldAfter(InitialWorld(settings), steps).pool);
  }

  // ---------- ephemeral agents ----------

  function EphemeralIds(m: map<AgentId, Subagent>): set<AgentId> {
    set id | id in m && m[id].ephemeral
  }

  lemma LastIsNew(pool: Pool)
    requires DistinctIds(pool) && pool != []
    ensures DistinctIds(pool[..|pool| - 1]) && pool[|pool| - 1].id !in Table(pool[..|pool| - 1])
    ensures Table(pool) == Table(pool[..|pool| - 1])[pool[|pool| - 1].id := pool[|pool| - 1]]
  {
    var n := |pool| - 1;
    var init, last := pool[..n], pool[n];
    assert pool == init + [last];
    assert forall j :: 0 <= j < n ==> init[j] == pool[j];
    IndexInTable(init, last.id);
    TablePush(init, last);
  }

  lemma CountOneMore(m: map<AgentId, Subagent>, a: Subagent)
    requires a.id !in m
    ensures |EphemeralIds(m[a.id := a])| == |EphemeralIds(m)| + (if a.ephemeral then 1 else 0)
  {
    assert EphemeralIds(m[a.id := a]) == EphemeralIds(m) + (if a.ephemeral then {a.id} else {});
  }

  lemma {:induction false} CountIsCardinality(pool: Pool)
    requires DistinctIds(pool)
    ensures EphemeralCount(pool) == |EphemeralIds(Table(pool))|
  {
    if pool == [] {
      assert EphemeralIds(Table(pool)) == {};
    } else {
      var n := |pool| - 1;
      CountIsCardinality(pool[..n]);
      LastIsNew(pool);
      CountOneMore(Table(pool[..n]), pool[n]);
    }
  }

  // In every reachable world the ephemeral agents are exactly those held by the workers that
  // spawned them.
  lemma EphemeralsAreHeldBySpawners(settings: Settings, steps: seq<Step>, id: AgentId)
    requires settings.Valid()
    ensures var w := WorldAfter(InitialWorld(settings), steps);
      id in EphemeralIds(Table(w.pool)) <==>
      exists k :: k in w.workers && w.workers[k].agent == id && w.workers[k].spawned
  {
    InitialWorldIsGood(settings);
    RunKeepsInvariant(InitialWorld(settings), steps);
    var w := WorldAfter(InitialWorld(settings), steps);
    var m := Table(w.pool);
    if id in EphemeralIds(m) {
      assert AgentOk(id, m[id], w.next);
      var k :| k in w.workers && w.workers[k].agent == id;
      assert Owns(m, w.workers[k]);
    }
    if k :| k in w.workers && w.workers[k].agent == id && w.workers[k].spawned {
      assert Owns(m, w.workers[k]);
      assert AgentOk(id, m[id], w.next);
    }
  }

  function SpawnedBy(w: World, s: Step): Option<AgentId> {
    if s.StartRun? && Enabled(w, s) then
      var (_, _, acquired) := AfterAcquire(w.pool, w.next, w.settings, s.suggested, s.task, s.role);
      if acquired.Some? && acquired.value.spawned then Some(acquired.value.agent.id) else None
    else None
  }

  // A spawn takes the next number and leaves the count within the capacity it read.
  lemma SpawnTakesNextId(w: World, s: Step)
    requires WorldInvariant(w) && Enabled(w, s) && SpawnedBy(w, s).Some?
    ensures SpawnedBy(w, s).value == Ephemeral(w.next) && Next(w, s).next == w.next + 1
    ensures EphemeralCount(Next(w, s).pool) == EphemeralCount(w.pool) + 1 <= Capacity(w.settings, s.suggested)
  {
    assert Ephemeral(w.next) in Table(w.pool) ==> AgentOk(Ephemeral(w.next), Table(w.pool)[Ephemeral(w.next)], w.next);
    AcquireEffect(w.pool, w.next, w.settings, s.suggested, s.task, s.role);
    var (after, _, acquired) := AfterAcquire(w.pool, w.next, w.settings, s.suggested, s.task, s.role);
    assert after[..|after| - 1] == w.pool;
  }

  lemma {:induction false} CounterGrows(w: World, steps: seq<Step>, k: nat, m: nat)
    requires WorldInvariant(w) && k <= m <= |steps|
    ensures WorldAfter(w, steps[..k]).next <= WorldAfter(w, steps[..m]).next
    decreases m
  {
    if k < m {
      CounterGrows(w, steps, k, m - 1);
      assert steps[..m][..m - 1] == steps[..m - 1];
    }
  }

  // No ephemeral id is ever given out twice.
  lemma EphemeralIdsAreNeverReused(settings: Settings, steps: seq<Step>, k: nat, m: nat)
    requires settings.Valid() && k < m < |steps|
    ensures var w := InitialWorld(settings);
      var first := SpawnedBy(WorldAfter(w, steps[..k]), steps[k]);
      var second := SpawnedBy(WorldAfter(w, steps[..m]), steps[m]);
      first.Some? && second.Some? ==> first != second
  {
    var w := InitialWorld(settings);
    var early, late := WorldAfter(w, steps[..k]), WorldAfter(w, steps[..m]);
    InitialWorldIsGood(settings);
    RunKeepsInvariant(w, steps[..k]);
    RunKeepsInvariant(w, steps[..m]);
    if SpawnedBy(early, steps[k]).Some? && SpawnedBy(late, steps[m]).Some? {
      SpawnTakesNextId(early, steps[k]);
      SpawnTakesNextId(late, steps[m]);
      assert steps[..k + 1][..k] == steps[..k];
      CounterGrows(w, steps, k + 1, m);
    }
  }

  lemma StartWithoutSpawn(w: World, s: Step)
    requires WorldInvariant(w) && Enabled(w, s) && SpawnedBy(w, s).None? && s.StartRun?
    ensures EphemeralIds(Table(Next(w, s).pool)) <= EphemeralIds(Table(w.pool))
  {
    var m := Table(w.pool);
    assert Ephemeral(w.next) in m ==> AgentOk(Ephemeral(w.next), m[Ephemeral(w.next)], w.next);
    AcquireEffect(w.pool, w.next, w.settings, s.suggested, s.task, s.role);
  }

  lemma WorkSpawnsNothing(w: World, s: Step)
    requires WorldInvariant(w) && Enabled(w, s) && s.StartWork?
    ensures EphemeralIds(Table(Next(w, s).pool)) <= EphemeralIds(Table(w.pool))
  {
    assert Owns(Table(w.pool), w.workers[s.worker]);
    MarkEffect(w.pool, w.workers[s.worker].agent);
  }

  lemma FinishSpawnsNothing(w: World, s: Step)
    requires WorldInvariant(w) && Enabled(w, s) && s.FinishRun?
    ensures EphemeralIds(Table(Next(w, s).pool)) <= EphemeralIds(Table(w.pool))
  {
    assert Owns(Table(w.pool), w.workers[s.worker]);
    ReleaseEffect(w.pool, w.workers[s.worker].agent, s.failed);
  }

  lemma StepWithoutSpawn(w: World, s: Step)
    requires WorldInvariant(w) && Enabled(w, s) && SpawnedBy(w, s).None?
    ensures EphemeralIds(Table(Next(w, s).pool)) <= EphemeralIds(Table(w.pool))
  {
    match s
    case StartRun(_, _, _, _) => StartWithoutSpawn(w, s);
    case StartWork(_) => WorkSpawnsNothing(w, s);
    case FinishRun(_, _) => FinishSpawnsNothing(w, s);
    case ChangeSettings(_) =>
    case Reconcile =>
      FlagsFromInvariant(w);
      ReconcileKeepsEphemerals(w.pool, w.settings);
  }

  lemma ReconcileKeepsEphemerals(pool: Pool, settings: Settings)
    requires settings.Valid() && DistinctIds(pool) && FlagsMatchIds(Table(pool))
    ensures EphemeralIds(Table(Reconciled(pool, settings))) == EphemeralIds(Table(pool))
  {
    ReconcileEffect(pool, settings);
    SameEphemerals(Table(pool), Table(Reconciled(pool, settings)), settings);
  }

  lemma SameEphemerals(m: map<AgentId, Subagent>, after: map<AgentId, Subagent>, settings: Settings)
    requires settings.Valid() && FlagsMatchIds(m) && IsReconciled(m, after, settings)
    ensures EphemeralIds(after) == EphemeralIds(m)
  {
  }

  // Only a spawn raises the number of ephemeral agents.
  lemma OnlySpawnsAddEphemerals(w: World, s: Step)
    requires WorldInvariant(w) && Enabled(w, s) && SpawnedBy(w, s).None?
    ensures EphemeralCount(Next(w, s).pool) <= EphemeralCount(w.pool)
  {
    StepWithoutSpawn(w, s);
    StepKeepsInvariant(w, s);
    CountIsCardinality(w.pool);
    CountIsCardinality(Next(w, s).pool);
    SubsetIsSmaller(EphemeralIds(Table(Next(w, s).pool)), EphemeralIds(Table(w.pool)));
  }

  // Under settings that never change the configured maximum is never exceeded.
  lemma {:induction false} EphemeralBound(settings: Settings, steps: seq<Step>)
    requires settings.Valid()
    requires forall s :: s in steps ==> !s.ChangeSettings?
    ensures var w := WorldAfter(InitialWorld(settings), steps);
      w.settings == settings && EphemeralCount(w.pool) <= settings.maxEphemeral
  {
    var w := InitialWorld(settings);
    InitialWorldIsGood(settings);
    if steps == [] {
      CountIsCardinality(w.pool);
      TableEntries(w.pool);
      assert EphemeralIds(Table(w.pool)) == {};
    } else {
      var n := |steps| - 1;
      var before, s := WorldAfter(w, steps[..n]), steps[n];
      assert s in steps;
      EphemeralBound(settings, steps[..n]);
      RunKeepsInvariant(w, steps[..n]);
      if Enabled(before, s) {
        if SpawnedBy(before, s).Some? {
          SpawnTakesNextId(before, s);
        } else {
          OnlySpawnsAddEphemerals(before, s);
        }
      }
    }
  }

  // ---------- reconciliation, stated for every reachable pool ----------

  // Where an agent of a reconciled pool comes from, and which role and place it has.
  ghost predicate IsAccountedFor(before: Pool, settings: Settings, a: Subagent)
    requires settings.Valid()
  {
    && (a in before
        || (InRange(settings, a.id) && a == FreshAgent(settings, a.id.n))
        || (exists b :: b in before && b.currentTask.None? && a == b.(role := a.role)))
    && (InRange(settings, a.id) ==> !a.ephemeral)
    && (InRange(settings, a.id) && a.currentTask.None? ==> a.role == RoleFor(settings, a.id.n))
    && (!a.ephemeral && !InRange(settings, a.id) ==> a.currentTask.Some?)
  }

  // Exactly one persistent agent per number in range, no busy or ephemeral agent touched, every
  // free agent in range in its role, and an agent out of range only while it holds a task.
  lemma ReconcileIsRight(settings: Settings, steps: seq<Step>)
    requires settings.Valid()
    ensures var w := WorldAfter(InitialWorld(settings), steps);
      w.settings.Valid() &&
      var after := Reconciled(w.pool, w.settings);
      && DistinctIds(after) && Sorted(after, AgentName)
      && (forall i :: 1 <= i <= w.settings.teamSize ==> Persistent(i) in IdSet(after))
      && (forall a :: a in w.pool && (a.currentTask.Some? || a.ephemeral) ==> a in after)
      && (forall a :: a in after ==> IsAccountedFor(w.pool, w.settings, a))
  {
    var w := WorldAfter(InitialWorld(settings), steps);
    InitialWorldIsGood(settings);
    RunKeepsInvariant(InitialWorld(settings), steps);
    FlagsFromInvariant(w);
    ReconcileEffect(w.pool, w.settings);
    ReconciledMembers(w.pool, Reconciled(w.pool, w.settings), w.settings);
  }

  lemma ReconciledMembers(before: Pool, after: Pool, settings: Settings)
    requires settings.Valid() && DistinctIds(before) && DistinctIds(after)
    requires FlagsMatchIds(Table(before)) && IsReconciled(Table(before), Table(after), settings)
    ensures forall i :: 1 <= i <= settings.teamSize ==> Persistent(i) in IdSet(after)
    ensures forall a :: a in before && (a.currentTask.Some? || a.ephemeral) ==> a in after
    ensures forall a :: a in after ==> IsAccountedFor(before, settings, a)
  {
    var m, m' := Table(before), Table(after);
    TableEntries(before);
    TableEntries(after);
    forall i | 1 <= i <= settings.teamSize
      ensures Persistent(i) in IdSet(after)
    {
      assert InRange(settings, Persistent(i)) && m'[Persistent(i)] in after;
    }
    forall a | a in before && (a.currentTask.Some? || a.ephemeral)
      ensures a in after
    {
      assert m[a.id] == a && a.id in m';
    }
    forall a | a in after
      ensures IsAccountedFor(before, settings, a)
    {
      assert m'[a.id] == a;
      if InRange(settings, a.id) && a.id in m && m[a.id].currentTask.None? {
        assert m[a.id] in before && a == m[a.id].(role := a.role);
      }
    }
  }
}
