/** What a finished plan holds, said without the functions that build it. */
module PlanContents {
  import opened Decomposition
  import opened PlanOutcomes
  import opened Plans
  import opened Text

  // ---------- ids ----------

  predicate AllDashes(s: string) {
    forall i :: 0 <= i < |s| ==> s[i] == '-'
  }

  lemma {:induction false} DashesAtEnd(s: string)
    ensures TrimEnd(s, IsDash) <= s && AllDashes(s[|TrimEnd(s, IsDash)|..])
  {
    if s != [] && IsDash(s[|s| - 1]) {
      var n := |s| - 1;
      DashesAtEnd(s[..n]);
      var k := |TrimEnd(s[..n], IsDash)|;
      assert s[k..] == s[..n][k..] + [s[n]];
    }
  }

  lemma {:induction false} DashesAtStart(s: string) returns (k: nat)
    ensures k <= |s| && TrimStart(s, IsDash) == s[k..] && AllDashes(s[..k])
  {
    k := 0;
    if s != [] && IsDash(s[0]) {
      var j := DashesAtStart(s[1..]);
      k := j + 1;
      assert s[..k] == [s[0]] + s[1..][..j];
    }
  }

  // Dashes at either end are cut off, and nothing else.
  lemma DashesCut(d: string) returns (before: string, after: string)
    ensures before + TrimMatches(d, IsDash) + after == d && AllDashes(before) && AllDashes(after)
  {
    var k := DashesAtStart(d);
    var rest := d[k..];
    DashesAtEnd(rest);
    before, after := d[..k], rest[|TrimEnd(rest, IsDash)|..];
    assert rest == TrimEnd(rest, IsDash) + after;
    assert d == d[..k] + rest;
  }

  // What is left starts and ends with something else.
  lemma NoDashAtEnds(d: string)
    ensures var piece := TrimMatches(d, IsDash);
      piece != "" ==> piece[0] != '-' && piece[|piece| - 1] != '-'
  {
    var j := TrimStartFacts(d, IsDash);
    TrimEndFacts(d[j..], IsDash);
    var piece := TrimEnd(d[j..], IsDash);
    if piece != "" {
      assert piece[0] == d[j..][0];
    }
  }

  // A cleaned id is the trimmed text with a dash for every character that is no letter or digit,
  // without the dashes at either end, in lower case.
  lemma CleanedCuts(raw: string) returns (before: string, piece: string, after: string)
    ensures before + piece + after == Dashed(Trim(raw)) && AllDashes(before) && AllDashes(after)
    ensures Cleaned(raw) == AsciiLower(piece)
    ensures piece != "" ==> piece[0] != '-' && piece[|piece| - 1] != '-'
  {
    var d := Dashed(Trim(raw));
    before, after := DashesCut(d);
    piece := TrimMatches(d, IsDash);
    NoDashAtEnds(d);
  }

  // The part of an id after its last colon.
  lemma {:induction false} LastSegmentCuts(id: string) returns (k: nat)
    ensures k <= |id| && LastSegment(id) == id[k..] && (k > 0 ==> id[k - 1] == ':')
    ensures forall i :: k <= i < |id| ==> id[i] != ':'
  {
    k := |id|;
    if id != "" && id[k - 1] != ':' {
      k := LastSegmentCuts(id[..|id| - 1]);
      assert id[k..] == id[..|id| - 1][k..] + [id[|id| - 1]];
    }
  }

  // The integration slug alone, or behind a colon at the end.
  predicate NamesIntegration(id: string) {
    id == "task-integrate" || (|id| >= 15 && id[|id| - 15..] == ":task-integrate")
  }

  lemma SegmentNames(id: string, k: nat)
    requires k <= |id| && id[k..] == "task-integrate" && (k > 0 ==> id[k - 1] == ':')
    ensures NamesIntegration(id)
  {
    assert |"task-integrate"| == 14;
    if k > 0 {
      assert id[k - 1..] == ":" + id[k..];
      assert id[|id| - 15..] == id[k - 1..];
    } else {
      assert id[0..] == id;
    }
  }

  lemma NoColonInSlug(id: string, k: nat)
    requires k <= |id| && id == "task-integrate" && (k > 0 ==> id[k - 1] == ':')
    ensures k == 0
  {
    assert forall i :: 0 <= i < |id| ==> id[i] != ':';
  }

  lemma IntegrationIdMeaning(id: string)
    ensures IsIntegrationTaskId(id) <==> NamesIntegration(id)
  {
    var k := LastSegmentCuts(id);
    if IsIntegrationTaskId(id) {
      SegmentNames(id, k);
    } else if id == "task-integrate" {
      NoColonInSlug(id, k);
    } else if NamesIntegration(id) {
      SuffixSegment(id, k);
    }
  }

  lemma SuffixSegment(id: string, k: nat)
    requires |id| >= 15 && id[|id| - 15..] == ":task-integrate"
    requires k <= |id| && (k > 0 ==> id[k - 1] == ':') && forall i :: k <= i < |id| ==> id[i] != ':'
    ensures id[k..] == "task-integrate"
  {
    var n := |id| - 15;
    assert id[n] == id[n..][0];
    assert forall i :: n < i < |id| ==> id[i] == id[n..][i - n] && id[i] != ':';
    assert k == n + 1;
    assert id[k..] == id[n..][1..];
  }

  // ---------- seeds ----------

  // The description is not blank and the id does not name the integration task.
  predicate IsUsable(seed: PlanSeed) {
    && (exists i :: 0 <= i < |seed.description| && !IsWhitespace(seed.description[i]))
    && !NamesIntegration(seed.id.GetOr(""))
  }

  lemma BlankMeaning(s: string)
    ensures Trim(s) == "" <==> AllWhitespace(s)
  {
    var before, after := TrimCuts(s);
    if Trim(s) != "" {
      assert s[|before|] == Trim(s)[0];
    } else {
      assert s == before + after;
    }
  }

  lemma UsableMeaning(seed: PlanSeed)
    ensures Usable(seed) <==> IsUsable(seed)
  {
    BlankMeaning(seed.description);
    IntegrationIdMeaning(seed.id.GetOr(""));
  }

  lemma UsableLast(contract: seq<PlanSeed>)
    requires contract != []
    ensures var n := |contract| - 1;
      UsableSeeds(contract)
      == UsableSeeds(contract[..n]) + (if IsUsable(contract[n]) then [contract[n]] else [])
  {
    UsableMeaning(contract[|contract| - 1]);
  }

  lemma {:induction false} UsablePositions(contract: seq<PlanSeed>) returns (at: seq<nat>)
    ensures Increases(at) && |at| == |UsableSeeds(contract)|
    ensures forall k :: 0 <= k < |at| ==> at[k] < |contract| && UsableSeeds(contract)[k] == contract[at[k]]
    ensures forall i :: 0 <= i < |contract| ==> (i in at <==> IsUsable(contract[i]))
  {
    at := [];
    if contract != [] {
      var n := |contract| - 1;
      at := UsablePositions(contract[..n]);
      assert forall i :: 0 <= i < n ==> contract[i] == contract[..n][i];
      UsableLast(contract);
      if IsUsable(contract[n]) {
        at := at + [n];
      }
    }
  }

  // The chosen seeds are the first usable ones of the contract, in its order: as many as there are,
  // up to one less than the plan may hold, but at least one.
  lemma ChosenInOrder(contract: seq<PlanSeed>, planMaxTasks: nat) returns (at: seq<nat>)
    ensures Increases(at) && |at| == |ContractSeeds(contract, planMaxTasks)|
    ensures forall k :: 0 <= k < |at| ==>
      at[k] < |contract| && IsUsable(contract[at[k]]) && ContractSeeds(contract, planMaxTasks)[k] == contract[at[k]]
    ensures |at| <= (if planMaxTasks <= 2 then 1 else planMaxTasks - 1)
    ensures forall i :: 0 <= i < |contract| && IsUsable(contract[i]) && i !in at ==>
      |at| == (if planMaxTasks <= 2 then 1 else planMaxTasks - 1) && forall k :: 0 <= k < |at| ==> at[k] < i
  {
    var all := UsablePositions(contract);
    at := all[..|ContractSeeds(contract, planMaxTasks)|];
    forall k | 0 <= k < |at|
      ensures IsUsable(contract[at[k]])
    {
      assert all[k] in all;
    }
    forall i | 0 <= i < |contract| && IsUsable(contract[i]) && i !in at
      ensures |at| == (if planMaxTasks <= 2 then 1 else planMaxTasks - 1) && forall k :: 0 <= k < |at| ==> at[k] < i
    {
      var j :| 0 <= j < |all| && all[j] == i;
      assert j >= |at|;
    }
  }

  // ---------- dependencies ----------

  // A dependency survives: its cleaned id is not empty, names some seed, and not the owner.
  predicate IsKept(planId: string, taskId: string, valid: set<string>, raw: string) {
    Cleaned(raw) != "" && planId + ":" + Cleaned(raw) != taskId && planId + ":" + Cleaned(raw) in valid
  }

  lemma KeptLast(planId: string, taskId: string, valid: set<string>, deps: seq<string>)
    requires deps != []
    ensures var n := |deps| - 1;
      KeptDependencies(planId, taskId, valid, deps) == KeptDependencies(planId, taskId, valid, deps[..n])
        + (if IsKept(planId, taskId, valid, deps[n]) then [planId + ":" + Cleaned(deps[n])] else [])
  {
  }

  // The elements of deps at these positions survive, and no others; kept holds their full ids.
  predicate ArePositions(planId: string, taskId: string, valid: set<string>, deps: seq<string>,
                         at: seq<nat>, kept: seq<string>) {
    && Increases(at) && |at| == |kept|
    && (forall k :: 0 <= k < |at| ==> at[k] < |deps| && kept[k] == planId + ":" + Cleaned(deps[at[k]]))
    && (forall i :: 0 <= i < |deps| ==> (i in at <==> IsKept(planId, taskId, valid, deps[i])))
  }

  lemma PositionsExtend(planId: string, taskId: string, valid: set<string>, front: seq<string>, last: string,
                        at: seq<nat>, kept: seq<string>)
    requires ArePositions(planId, taskId, valid, front, at, kept)
    ensures
      if IsKept(planId, taskId, valid, last)
      then ArePositions(planId, taskId, valid, front + [last], at + [|front|], kept + [planId + ":" + Cleaned(last)])
      else ArePositions(planId, taskId, valid, front + [last], at, kept)
  {
    if !IsKept(planId, taskId, valid, last) {
      assert |front| !in at;
    }
  }

  // The surviving dependencies keep their order, repeated ones included.
  lemma {:induction false} DependenciesInOrder(planId: string, taskId: string, valid: set<string>, deps: seq<string>)
      returns (at: seq<nat>)
    ensures ArePositions(planId, taskId, valid, deps, at, KeptDependencies(planId, taskId, valid, deps))
  {
    at := [];
    if deps != [] {
      var n := |deps| - 1;
      at := DependenciesInOrder(planId, taskId, valid, deps[..n]);
      KeptLast(planId, taskId, valid, deps);
      PositionsExtend(planId, taskId, valid, deps[..n], deps[n], at,
        KeptDependencies(planId, taskId, valid, deps[..n]));
      assert deps == deps[..n] + [deps[n]];
      if IsKept(planId, taskId, valid, deps[n]) {
        at := at + [n];
      }
    }
  }

  // ---------- the whole plan ----------

  // The number of work tasks: all seeds, up to one less than the plan may hold, but at least one.
  function WorkSize(seeds: seq<PlanSeed>, planMaxTasks: nat): nat {
    var cap := if planMaxTasks <= 2 then 1 else planMaxTasks - 1;
    if |seeds| < cap then |seeds| else cap
  }

  predicate IsUnstarted(t: PlanTask) {
    t.state == (if t.dependencies == [] then Ready else Pending) && t.attempts == 0 && t.reviewLoops == 0
  }

  // Work task i: under the plan's id, the seed's cleaned id, or a number where that is empty.
  predicate IsWorkTask(planId: string, seed: PlanSeed, i: nat, t: PlanTask) {
    && t.id == planId + ":" + (if Cleaned(seed.id.GetOr("")) == "" then "task-" + Decimal(i + 1)
                               else Cleaned(seed.id.GetOr("")))
    && IsUnstarted(t)
  }

  lemma WorkTaskInWords(planId: string, seeds: seq<PlanSeed>, i: nat, depth: nat)
    requires i < |seeds|
    ensures IsWorkTask(planId, seeds[i], i, WorkTask(planId, seeds, i).(depth := depth))
  {
  }

  lemma DraftTask(planId: string, seeds: seq<PlanSeed>, planMaxTasks: nat, tasks: Tasks, maxDepth: nat, i: nat)
    requires IsMaterialized(Draft(planId, seeds, planMaxTasks), tasks, maxDepth)
    requires i < WorkCount(seeds, planMaxTasks)
    ensures i < |tasks| && tasks[i] == WorkTask(planId, seeds, i).(depth := tasks[i].depth)
  {
  }

  lemma DraftEnd(planId: string, seeds: seq<PlanSeed>, planMaxTasks: nat, tasks: Tasks, maxDepth: nat)
    requires IsMaterialized(Draft(planId, seeds, planMaxTasks), tasks, maxDepth)
    ensures |tasks| == WorkSize(seeds, planMaxTasks) + 1 == WorkCount(seeds, planMaxTasks) + 1
    ensures IsUnstarted(tasks[|tasks| - 1])
  {
  }

  // What the integration task looks like.
  predicate IsLastTask(planId: string, tasks: Tasks) {
    tasks != [] &&
    var n := |tasks| - 1;
    && tasks[n].id == planId + ":task-integrate" && IsUnstarted(tasks[n]) && |tasks[n].dependencies| == n
    && forall i :: 0 <= i < n ==> tasks[n].dependencies[i] == tasks[i].id
  }

  lemma LayoutEnds(planId: string, seeds: seq<PlanSeed>, n: nat, tasks: Tasks)
    requires n <= |seeds| && HasLayout(planId, seeds, n, tasks) && IsUnstarted(tasks[n])
    ensures IsLastTask(planId, tasks)
  {
  }

  // The plan holds the work tasks in seed order and then the integration task, which depends on
  // all of them in order. A task is ready at first exactly when it depends on nothing.
  lemma PlanInWords(planId: string, seeds: seq<PlanSeed>, planMaxTasks: nat, tasks: Tasks, maxDepth: nat)
    requires IsMaterialized(Draft(planId, seeds, planMaxTasks), tasks, maxDepth)
    ensures |tasks| == WorkSize(seeds, planMaxTasks) + 1 <= |seeds| + 1
    ensures forall i :: 0 <= i < |tasks| - 1 ==> IsWorkTask(planId, seeds[i], i, tasks[i])
    ensures IsLastTask(planId, tasks)
  {
    var n := WorkCount(seeds, planMaxTasks);
    DraftEnd(planId, seeds, planMaxTasks, tasks, maxDepth);
    MaterializedLayout(planId, seeds, planMaxTasks, tasks, maxDepth);
    LayoutEnds(planId, seeds, n, tasks);
    forall i | 0 <= i < n
      ensures IsWorkTask(planId, seeds[i], i, tasks[i])
    {
      DraftTask(planId, seeds, planMaxTasks, tasks, maxDepth, i);
      WorkTaskInWords(planId, seeds, i, tasks[i].depth);
    }
  }
}
