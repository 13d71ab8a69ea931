/** The other half of dead-lettering: in undisturbed runs no counted failure is forgotten, so an event
    that keeps failing does reach the dead-letter stream. */
module BusFailures {
  import opened BusDeadLetters
  import opened RedisBus
  import opened Text

  // Every failure of an event that is neither handled nor copied is on its counter, or some
  // worker has yet to count it.
  ghost predicate Remembered(b: Bus, k: Key) {
    IsSettled(b, k.0, k.1) || Count(b.failures, k) <= Count(b.counter, k) + |FailedOn(b, k)|
  }

  predicate ClearsFor(b: Bus, s: Step, k: Key)
    requires Enabled(b, s)
  {
    s.ClearFailure? && KeyOf(b, b.workers[s.worker].group, b.workers[s.worker].entry) == k
  }

  // Counters fall only when they are cleared, and each counted failure shows.
  lemma CounterRises(b: Bus, s: Step, k: Key)
    requires Enabled(b, s) && Undisturbed(s) && !ClearsFor(b, s, k)
    ensures Count(Next(b, s).counter, k) >= Count(b.counter, k) + if CountsOn(b, s, k) then 1 else 0
  {
    if !s.Increment? && !s.ClearFailure? {
      OtherStepsKeepCounters(b, s);
    }
  }

  // A counter is cleared only for an event that has been handled or copied.
  lemma ClearedIsSettled(b: Bus, s: Step, k: Key)
    requires BusInvariant(b) && Enabled(b, s) && ClearsFor(b, s, k)
    ensures IsSettled(b, k.0, k.1)
  {
    assert PhaseOk(b, b.workers[s.worker]);
  }

  // A worker that has yet to count a failure still has, unless it counts it in this step.
  lemma OwingWorkerStays(b: Bus, s: Step, w: nat)
    requires Enabled(b, s) && Undisturbed(s) && w in b.workers && b.workers[w].HandlerFailed?
    requires !(s.Increment? && s.worker == w)
    ensures w in Next(b, s).workers && Next(b, s).workers[w] == b.workers[w]
  {
    if ByOther(s, w) {
      OtherWorkersStay(b, s, w);
    }
  }

  lemma FailedOnStays(b: Bus, s: Step, k: Key)
    requires BusInvariant(b) && Enabled(b, s) && Undisturbed(s)
    ensures FailedOn(b, k) - (if CountsOn(b, s, k) then {s.worker} else {}) <= FailedOn(Next(b, s), k)
  {
    forall w | w in FailedOn(b, k) && !(s.Increment? && s.worker == w)
      ensures w in FailedOn(Next(b, s), k)
    {
      OwingWorkerStays(b, s, w);
      PhaseKeyStays(b, s, w);
    }
  }

  lemma NewFailureIsOwed(b: Bus, s: Step, k: Key)
    requires BusInvariant(b) && Enabled(b, s) && FailsOn(b, s, k)
    ensures s.worker in FailedOn(Next(b, s), k) && s.worker !in FailedOn(b, k)
  {
    StepGrows(b, s);
    assert PhaseOk(b, b.workers[s.worker]);
    KeyStays(b, Next(b, s), b.workers[s.worker].group, b.workers[s.worker].entries[0]);
  }

  // How many workers owe a count for k after a step.
  lemma OwedFrame(b: Bus, s: Step, k: Key)
    requires BusInvariant(b) && Enabled(b, s) && Undisturbed(s)
    ensures |FailedOn(Next(b, s), k)| >= |FailedOn(b, k)|
      + (if FailsOn(b, s, k) then 1 else 0) - (if CountsOn(b, s, k) then 1 else 0)
  {
    FailedOnStays(b, s, k);
    if FailsOn(b, s, k) {
      NewFailureIsOwed(b, s, k);
      SubsetIsSmaller(FailedOn(b, k) + {s.worker}, FailedOn(Next(b, s), k));
    } else {
      SubsetIsSmaller(FailedOn(b, k) - (if CountsOn(b, s, k) then {s.worker} else {}), FailedOn(Next(b, s), k));
    }
  }

  lemma StepRemembers(b: Bus, s: Step, k: Key)
    requires BusInvariant(b) && Enabled(b, s) && Undisturbed(s) && Remembered(b, k)
    ensures Remembered(Next(b, s), k)
  {
    StepGrows(b, s);
    if ClearsFor(b, s, k) {
      ClearedIsSettled(b, s, k);
    }
    if IsSettled(b, k.0, k.1) {
      SettledStays(b, Next(b, s), k.0, k.1);
    } else {
      FailuresFrame(b, s, k);
      CounterRises(b, s, k);
      OwedFrame(b, s, k);
    }
  }

  lemma {:induction false} RunRemembers(maxRetries: nat, steps: seq<Step>, k: Key)
    requires forall s :: s in steps ==> Undisturbed(s)
    ensures Remembered(After(EmptyBus(maxRetries), steps), k)
  {
    if steps != [] {
      var n := |steps| - 1;
      var before, s := After(EmptyBus(maxRetries), steps[..n]), steps[n];
      assert s in steps;
      RunRemembers(maxRetries, steps[..n], k);
      RunKeepsInvariant(EmptyBus(maxRetries), steps[..n]);
      if Enabled(before, s) {
        StepRemembers(before, s, k);
      }
    }
  }

  // Some worker's next command is to copy the event to the dead-letter stream.
  ghost predicate BeingCopied(b: Bus, k: Key) {
    exists w :: w in b.workers && b.workers[w].Exhausted? && KeyOf(b, b.workers[w].group, b.workers[w].entry) == k
  }

  lemma ClearedUnsettledIsCopied(b: Bus, k: Key)
    requires BusInvariant(b) && BeingCleared(b, k) && !IsSettled(b, k.0, k.1)
    ensures BeingCopied(b, k)
  {
    var w :| w in b.workers && IsClearing(b, b.workers[w], k);
    assert PhaseOk(b, b.workers[w]);
  }

  // Over every undisturbed interleaving: an event that is neither handled nor copied has fewer
  // than max_retries failures that are counted, or a worker is about to copy it.
  lemma FailingEventIsCopied(maxRetries: nat, steps: seq<Step>, g: Group, e: EventId)
    requires maxRetries > 0 && forall s :: s in steps ==> Undisturbed(s)
    ensures var b := After(EmptyBus(maxRetries), steps);
      || IsSettled(b, g, e)
      || Count(b.failures, (g, e)) < maxRetries + |FailedOn(b, (g, e))|
      || BeingCopied(b, (g, e))
  {
    var b := After(EmptyBus(maxRetries), steps);
    RunRemembers(maxRetries, steps, (g, e));
    CountersStayLow(maxRetries, steps);
    RunKeepsInvariant(EmptyBus(maxRetries), steps);
    if BeingCleared(b, (g, e)) && !IsSettled(b, g, e) {
      ClearedUnsettledIsCopied(b, (g, e));
    }
  }

  // Between ticks: an event that has failed max_retries times has been handled or is in the
  // dead-letter stream.
  lemma QuietBusHasCopied(maxRetries: nat, steps: seq<Step>, g: Group, e: EventId)
    requires maxRetries > 0 && forall s :: s in steps ==> Undisturbed(s)
    requires After(EmptyBus(maxRetries), steps).workers == map[]
    requires Count(After(EmptyBus(maxRetries), steps).failures, (g, e)) >= maxRetries
    ensures IsSettled(After(EmptyBus(maxRetries), steps), g, e)
  {
    FailingEventIsCopied(maxRetries, steps, g, e);
    assert FailedOn(After(EmptyBus(maxRetries), steps), (g, e)) == {};
  }
}
