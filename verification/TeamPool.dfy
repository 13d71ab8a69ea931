/** The shared pool of subagents: src/team/manager.rs. Every locked method is a function of
    the pool here, and a method of TeamManager that carries it out in place. */
module TeamPool {
  import opened Options
  import opened Text

  datatype AgentId = Persistent(n: nat) | Ephemeral(n: nat) {
    function Name(): string {
      match this
      case Persistent(i) => "subagent-" + Decimal(i)
      case Ephemeral(i) => "ephemeral-" + Decimal(i)
    }
  }

  datatype AgentState = Idle | Assigned | Running | WaitingReview | Paused | Failed

  datatype Subagent = Subagent(
    id: AgentId,
    role: string,
    ephemeral: bool,
    state: AgentState,
    currentTask: Option<string>
  ) {
    function Name(): string { id.Name() }
  }

  datatype Settings = Settings(teamSize: nat, allowEphemeral: bool, maxEphemeral: nat, roleset: seq<string>) {
    // What `validate` demands and the pool relies on.
    predicate Valid() { teamSize > 0 && roleset != [] }
  }

  datatype Acquired = Acquired(agent: Subagent, spawned: bool)

  type Pool = seq<Subagent>

  // ---------- lookups ----------

  function IndexOf(pool: Pool, id: AgentId): (i: nat)
    ensures i <= |pool|
    ensures i < |pool| ==> pool[i].id == id
    ensures forall j :: 0 <= j < i ==> pool[j].id != id
  {
    if pool == [] || pool[0].id == id then 0 else 1 + IndexOf(pool[1..], id)
  }

  predicate DistinctIds(pool: Pool) {
    forall i, j :: 0 <= i < j < |pool| ==> pool[i].id != pool[j].id
  }

  function IdSet(pool: Pool): set<AgentId> {
    set a | a in pool :: a.id
  }

  // The pool as a table from ids to agents.
  function Table(pool: Pool): map<AgentId, Subagent> {
    map id | id in IdSet(pool) && IndexOf(pool, id) < |pool| :: pool[IndexOf(pool, id)]
  }

  lemma TableEntries(pool: Pool)
    requires DistinctIds(pool)
    ensures forall a :: a in pool <==> a.id in Table(pool) && Table(pool)[a.id] == a
    ensures forall id :: id in Table(pool) ==> Table(pool)[id].id == id && Table(pool)[id] in pool
  {
    forall a | a in pool
      ensures a.id in Table(pool) && Table(pool)[a.id] == a
    {
      var k :| 0 <= k < |pool| && pool[k] == a;
      var i := IndexOf(pool, a.id);
      assert a.id in IdSet(pool);
    }
  }

  // A table is determined by its entries.
  lemma TableFromEntries(pool: Pool, m: map<AgentId, Subagent>)
    requires DistinctIds(pool)
    requires forall id :: id in m ==> m[id].id == id
    requires forall a :: a in pool <==> a.id in m && m[a.id] == a
    ensures Table(pool) == m
  {
    TableEntries(pool);
    assert forall id :: id in m ==> m[id] in pool;
    assert Table(pool).Keys == m.Keys;
  }

  // ---------- acquire_for_task ----------

  function LowerRole(role: string): string {
    AsciiLower(role)
  }

  predicate Fits(a: Subagent, role: Option<string>) {
    a.state.Idle? && (role.Some? ==> LowerRole(a.role) == LowerRole(role.value))
  }

  function FirstFit(pool: Pool, role: Option<string>): (i: nat)
    ensures i <= |pool|
    ensures i < |pool| ==> Fits(pool[i], role)
    ensures forall j :: 0 <= j < i ==> !Fits(pool[j], role)
  {
    if pool == [] || Fits(pool[0], role) then 0 else 1 + FirstFit(pool[1..], role)
  }

  function EphemeralCount(pool: Pool): nat {
    if pool == [] then 0
    else EphemeralCount(pool[..|pool| - 1]) + (if pool[|pool| - 1].ephemeral then 1 else 0)
  }

  function Capacity(settings: Settings, suggested: nat): nat {
    if settings.maxEphemeral < suggested then settings.maxEphemeral else suggested
  }

  function SpawnRole(settings: Settings, role: Option<string>): string {
    if role.Some? then role.value
    else if settings.roleset == [] then "generalist"
    else settings.roleset[0]
  }

  function Spawned(settings: Settings, next: nat, task: string, role: Option<string>): Subagent {
    Subagent(Ephemeral(next), SpawnRole(settings, role), true, Assigned, Some(task))
  }

  predicate MaySpawn(pool: Pool, settings: Settings, suggested: nat) {
    settings.allowEphemeral && EphemeralCount(pool) < Capacity(settings, suggested)
  }

  function AfterAcquire(pool: Pool, next: nat, settings: Settings, suggested: nat, task: string, role: Option<string>)
    : (Pool, nat, Option<Acquired>)
  {
    var i := FirstFit(pool, role);
    if i < |pool| then
      var taken := pool[i].(state := Assigned, currentTask := Some(task));
      (pool[i := taken], next, Some(Acquired(taken, false)))
    else if MaySpawn(pool, settings, suggested) then
      var agent := Spawned(settings, next, task, role);
      (pool + [agent], next + 1, Some(Acquired(agent, true)))
    else (pool, next, None)
  }

  // ---------- what an acquisition means ----------

  predicate IsWanted(a: Subagent, role: Option<string>) {
    a.state == Idle && (role.Some? ==> SameUpToCase(a.role, role.value))
  }

  // Agent i is the first idle one with the wanted role, or the first idle one when none is wanted.
  predicate IsFirstWanted(pool: Pool, role: Option<string>, i: nat) {
    i < |pool| && IsWanted(pool[i], role) && forall j :: 0 <= j < i ==> !IsWanted(pool[j], role)
  }

  predicate NobodyIsWanted(pool: Pool, role: Option<string>) {
    forall a :: a in pool ==> !IsWanted(a, role)
  }

  function EphemeralPositions(pool: Pool): set<nat> {
    set i: nat | i < |pool| && pool[i].ephemeral
  }

  predicate HasRoom(pool: Pool, settings: Settings, suggested: nat) {
    && settings.allowEphemeral
    && |EphemeralPositions(pool)| < settings.maxEphemeral && |EphemeralPositions(pool)| < suggested
  }

  // A new agent for the task, in the wanted role or else the roleset's first.
  predicate IsSpawnFor(agent: Subagent, settings: Settings, next: nat, task: string, role: Option<string>) {
    && agent.id == Ephemeral(next) && agent.ephemeral
    && agent.state == Assigned && agent.currentTask == Some(task)
    && (role.Some? ==> agent.role == role.value)
    && (role.None? && settings.roleset != [] ==> agent.role == settings.roleset[0])
    && (role.None? && settings.roleset == [] ==> agent.role == "generalist")
  }

  // The first wanted agent is taken; without one an agent is spawned if there is room for it;
  // otherwise there is none.
  ghost predicate IsAcquisition(pool: Pool, next: nat, settings: Settings, suggested: nat, task: string,
                                role: Option<string>, after: Pool, next': nat, acquired: Option<Acquired>) {
    && (forall i: nat :: IsFirstWanted(pool, role, i) ==>
          && acquired.Some? && !acquired.value.spawned && next' == next
          && acquired.value.agent == pool[i].(state := Assigned, currentTask := Some(task))
          && after == pool[i := acquired.value.agent])
    && (NobodyIsWanted(pool, role) && HasRoom(pool, settings, suggested) ==>
          && acquired.Some? && acquired.value.spawned && next' == next + 1
          && IsSpawnFor(acquired.value.agent, settings, next, task, role)
          && after == pool + [acquired.value.agent])
    && (NobodyIsWanted(pool, role) && !HasRoom(pool, settings, suggested) ==>
          acquired.None? && after == pool && next' == next)
  }

  lemma FitsIsWanted(a: Subagent, role: Option<string>)
    ensures Fits(a, role) <==> IsWanted(a, role)
  {
    if role.Some? {
      LowerSame(a.role, role.value);
    }
  }

  lemma {:induction false} CountIsPositions(pool: Pool)
    ensures EphemeralCount(pool) == |EphemeralPositions(pool)|
  {
    if pool != [] {
      var n := |pool| - 1;
      CountIsPositions(pool[..n]);
      var init := EphemeralPositions(pool[..n]);
      assert EphemeralPositions(pool) == init + (if pool[n].ephemeral then {n} else {});
    }
  }

  // One of the cases always applies, and only one.
  lemma FirstWanted(pool: Pool, role: Option<string>)
    ensures var i := FirstFit(pool, role);
      && (i < |pool| ==> IsFirstWanted(pool, role, i))
      && (i == |pool| <==> NobodyIsWanted(pool, role))
    ensures forall i: nat :: IsFirstWanted(pool, role, i) ==> i == FirstFit(pool, role) && !NobodyIsWanted(pool, role)
  {
    forall a
      ensures Fits(a, role) <==> IsWanted(a, role)
    {
      FitsIsWanted(a, role);
    }
    var i := FirstFit(pool, role);
    if i == |pool| {
      forall a | a in pool
        ensures !IsWanted(a, role)
      {
        var j :| 0 <= j < |pool| && pool[j] == a;
      }
    } else {
      assert pool[i] in pool;
    }
  }

  lemma RoomForSpawn(pool: Pool, settings: Settings, suggested: nat)
    ensures MaySpawn(pool, settings, suggested) <==> HasRoom(pool, settings, suggested)
  {
    CountIsPositions(pool);
  }

  lemma AcquireMeaning(pool: Pool, next: nat, settings: Settings, suggested: nat, task: string, role: Option<string>)
    ensures var (after, next', acquired) := AfterAcquire(pool, next, settings, suggested, task, role);
      IsAcquisition(pool, next, settings, suggested, task, role, after, next', acquired)
  {
    FirstWanted(pool, role);
    RoomForSpawn(pool, settings, suggested);
  }

  // ---------- mark_running, release ----------

  function Marked(pool: Pool, id: AgentId): Pool {
    var i := IndexOf(pool, id);
    if i == |pool| then pool else pool[i := pool[i].(state := Running)]
  }

  function Released(pool: Pool, id: AgentId, failed: bool): Pool {
    var i := IndexOf(pool, id);
    if i == |pool| then pool
    else if pool[i].ephemeral then pool[..i] + pool[i + 1..]
    else pool[i := pool[i].(state := if failed then Failed else Idle, currentTask := None)]
  }

  // ---------- reconcile_persistent_pool ----------

  function RoleFor(settings: Settings, i: nat): string
    requires settings.Valid() && i > 0
  {
    settings.roleset[(i - 1) % |settings.roleset|]
  }

  // Roles are dealt in the order of the roleset, over and over.
  lemma RolesAreDealt(settings: Settings, i: nat)
    requires settings.Valid() && i > 0
    ensures i <= |settings.roleset| ==> RoleFor(settings, i) == settings.roleset[i - 1]
    ensures RoleFor(settings, i + |settings.roleset|) == RoleFor(settings, i)
  {
    var n := |settings.roleset|;
    ModWraps(i - 1, n);
    assert i + n - 1 == (i - 1) + n;
  }

  lemma MultiplesAreFar(d: int, n: int)
    requires n > 0 && d != 0
    ensures d * n >= n || d * n <= -n
  {
    if d >= 1 {
      assert d * n >= n;
    } else {
      assert d * n <= -n;
    }
  }

  lemma ModWraps(k: nat, n: nat)
    requires n > 0
    ensures (k + n) % n == k % n
  {
    var d := (k + n) / n - k / n - 1;
    assert k == k / n * n + k % n && k + n == (k + n) / n * n + (k + n) % n;
    assert d * n == (k + n) / n * n - k / n * n - n;
    if d != 0 {
      MultiplesAreFar(d, n);
    }
  }

  function FreshAgent(settings: Settings, i: nat): Subagent
    requires settings.Valid() && i > 0
  {
    Subagent(Persistent(i), RoleFor(settings, i), false, Idle, None)
  }

  function IndexOfPersistent(pool: Pool, i: nat): (k: nat)
    ensures k <= |pool|
    ensures k < |pool| ==> !pool[k].ephemeral && pool[k].id == Persistent(i)
    ensures forall j :: 0 <= j < k ==> pool[j].ephemeral || pool[j].id != Persistent(i)
  {
    if pool == [] || (!pool[0].ephemeral && pool[0].id == Persistent(i)) then 0
    else 1 + IndexOfPersistent(pool[1..], i)
  }

  function Provide(pool: Pool, settings: Settings, i: nat): Pool
    requires settings.Valid() && i > 0
  {
    var k := IndexOfPersistent(pool, i);
    if k == |pool| then pool + [FreshAgent(settings, i)]
    else if pool[k].currentTask.None? then pool[k := pool[k].(role := RoleFor(settings, i))]
    else pool
  }

  function ProvideAll(pool: Pool, settings: Settings, n: nat): Pool
    requires settings.Valid()
  {
    if n == 0 then pool else Provide(ProvideAll(pool, settings, n - 1), settings, n)
  }

  predicate InRange(settings: Settings, id: AgentId) {
    id.Persistent? && 1 <= id.n <= settings.teamSize
  }

  predicate Kept(settings: Settings, a: Subagent) {
    a.ephemeral || InRange(settings, a.id) || a.currentTask.Some?
  }

  function Retain(pool: Pool, settings: Settings): Pool {
    if pool == [] then []
    else Retain(pool[..|pool| - 1], settings) + (if Kept(settings, pool[|pool| - 1]) then [pool[|pool| - 1]] else [])
  }

  function AgentName(a: Subagent): string { a.Name() }

  function Reconciled(pool: Pool, settings: Settings): Pool
    requires settings.Valid()
  {
    Sort(Retain(ProvideAll(pool, settings, settings.teamSize), settings), AgentName)
  }

  // build_subagents
  function InitialPool(settings: Settings): (pool: Pool)
    requires settings.Valid()
    ensures |pool| == settings.teamSize
    ensures forall i :: 0 <= i < |pool| ==> pool[i] == FreshAgent(settings, i + 1)
  {
    seq(settings.teamSize, i requires 0 <= i < settings.teamSize => FreshAgent(settings, i + 1))
  }

  class TeamManager {
    var config: Settings
    var subagents: Pool
    var nextEphemeralId: nat

    ghost predicate Valid()
      reads this
    {
      config.Valid()
    }

    constructor (settings: Settings)
      requires settings.Valid()
      ensures Valid() && config == settings && subagents == InitialPool(settings) && nextEphemeralId == 1
    {
      config := settings;
      nextEphemeralId := 1;
      var pool: Pool := [];
      for idx := 0 to settings.teamSize
        invariant |pool| == idx
        invariant forall i :: 0 <= i < idx ==> pool[i] == FreshAgent(settings, i + 1)
      {
        pool := pool + [FreshAgent(settings, idx + 1)];
      }
      subagents := pool;
      assert pool == InitialPool(settings);
    }

    method CountEphemeral() returns (n: nat)
      ensures n == EphemeralCount(subagents)
    {
      n := 0;
      for i := 0 to |subagents|
        invariant n == EphemeralCount(subagents[..i])
      {
        assert subagents[..i + 1][..i] == subagents[..i];
        if subagents[i].ephemeral {
          n := n + 1;
        }
      }
      assert subagents[..|subagents|] == subagents;
    }

    method FindIdle(preferredRole: Option<string>) returns (i: nat)
      ensures i == FirstFit(subagents, preferredRole)
    {
      i := 0;
      while i < |subagents| && !Fits(subagents[i], preferredRole)
        invariant i <= |subagents|
        invariant forall j :: 0 <= j < i ==> !Fits(subagents[j], preferredRole)
      {
        i := i + 1;
      }
    }

    method Spawn(taskId: string, preferredRole: Option<string>) returns (agent: Subagent)
      modifies this`subagents, this`nextEphemeralId
      ensures agent == Spawned(config, old(nextEphemeralId), taskId, preferredRole)
      ensures subagents == old(subagents) + [agent] && nextEphemeralId == old(nextEphemeralId) + 1
    {
      agent := Spawned(config, nextEphemeralId, taskId, preferredRole);
      nextEphemeralId := nextEphemeralId + 1;
      subagents := subagents + [agent];
    }

    method TakeOrSpawn(taskId: string, preferredRole: Option<string>, suggested: nat)
        returns (acquired: Option<Acquired>)
      modifies this`subagents, this`nextEphemeralId
      ensures (subagents, nextEphemeralId, acquired)
           == AfterAcquire(old(subagents), old(nextEphemeralId), config, suggested, taskId, preferredRole)
    {
      var i := FindIdle(preferredRole);
      if i < |subagents| {
        var agent := subagents[i].(state := Assigned, currentTask := Some(taskId));
        subagents := subagents[i := agent];
        return Some(Acquired(agent, false));
      }
      if config.allowEphemeral {
        var currentEphemeral := CountEphemeral();
        if currentEphemeral < Capacity(config, suggested) {
          var agent := Spawn(taskId, preferredRole);
          return Some(Acquired(agent, true));
        }
      }
      return None;
    }

    // The suggested capacity is whatever the resource monitor last measured.
    method AcquireForTask(taskId: string, preferredRole: Option<string>, suggested: nat)
        returns (acquired: Option<Acquired>)
      modifies this`subagents, this`nextEphemeralId
      ensures (subagents, nextEphemeralId, acquired)
           == AfterAcquire(old(subagents), old(nextEphemeralId), config, suggested, taskId, preferredRole)
      ensures IsAcquisition(old(subagents), old(nextEphemeralId), config, suggested, taskId, preferredRole,
                            subagents, nextEphemeralId, acquired)
    {
      ghost var pool, next := subagents, nextEphemeralId;
      acquired := TakeOrSpawn(taskId, preferredRole, suggested);
      AcquireMeaning(pool, next, config, suggested, taskId, preferredRole);
    }

    method MarkRunning(id: AgentId)
      modifies this`subagents
      ensures subagents == Marked(old(subagents), id)
    {
      var i := IndexOf(subagents, id);
      if i < |subagents| {
        subagents := subagents[i := subagents[i].(state := Running)];
      }
    }

    method Release(id: AgentId, failed: bool) returns (found: bool, destroyed: bool)
      modifies this`subagents
      ensures subagents == Released(old(subagents), id, failed)
      ensures found <==> IndexOf(old(subagents), id) < |old(subagents)|
      ensures destroyed <==> |subagents| < |old(subagents)|
    {
      var position := IndexOf(subagents, id);
      if position == |subagents| {
        return false, false;
      }
      if subagents[position].ephemeral {
        subagents := subagents[..position] + subagents[position + 1..];
        return true, true;
      }
      var agent := subagents[position];
      agent := agent.(state := if failed then Failed else Idle, currentTask := None);
      subagents := subagents[position := agent];
      return true, false;
    }

    method ReconcilePersistentPool()
      requires Valid()
      modifies this`subagents
      ensures subagents == Reconciled(old(subagents), config)
    {
      for idx := 0 to config.teamSize
        invariant subagents == ProvideAll(old(subagents), config, idx)
      {
        var k := IndexOfPersistent(subagents, idx + 1);
        if k < |subagents| {
          if subagents[k].currentTask.None? {
            subagents := subagents[k := subagents[k].(role := RoleFor(config, idx + 1))];
          }
        } else {
          subagents := subagents + [FreshAgent(config, idx + 1)];
        }
      }
      var kept: Pool := [];
      for i := 0 to |subagents|
        invariant kept == Retain(subagents[..i], config)
      {
        assert subagents[..i + 1][..i] == subagents[..i];
        if Kept(config, subagents[i]) {
          kept := kept + [subagents[i]];
        }
      }
      assert subagents[..|subagents|] == subagents;
      subagents := Sort(kept, AgentName);
    }

    // apply_runtime_settings. `prepared` says whether the other settings are in order, the
    // profiles could be loaded and the snapshot was stored. Rejected settings change nothing.
    method ApplyRuntimeSettings(next: Settings, prepared: bool) returns (ok: bool)
      requires Valid()
      modifies this`config, this`subagents
      ensures Valid()
      ensures ok <==> next.Valid() && prepared
      ensures ok ==> config == next && subagents == Reconciled(old(subagents), next)
      ensures !ok ==> config == old(config) && subagents == old(subagents)
    {
      if next.teamSize == 0 || next.roleset == [] || !prepared {
        return false;
      }
      config := next;
      ReconcilePersistentPool();
      return true;
    }
  }
}
