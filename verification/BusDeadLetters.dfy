/** When events reach a dead-letter stream: the accounting of handling failures. */
module BusDeadLetters {
  import opened RedisBus
  import opened Text

  // Workers that have seen a handling failure for k and have not counted it yet.
  function FailedOn(b: Bus, k: Key): set<nat> {
    set w | w in b.workers && IsFailedOn(b, b.workers[w], k)
  }

  predicate IsFailedOn(b: Bus, p: Phase, k: Key) {
    p.HandlerFailed? && KeyOf(b, p.group, p.entry) == k
  }

  // Enough failures for the dead-letter stream when an INCR takes effect at most d times.
  predicate Justified(b: Bus, d: nat, k: Key) {
    Count(b.failures, k) >= 1 && d * Count(b.failures, k) >= b.maxRetries
  }

  ghost predicate KeyAccounted(b: Bus, d: nat, k: Key) {
    && Count(b.counter, k) <= d * Count(b.increments, k)
    && Count(b.increments, k) + |FailedOn(b, k)| <= Count(b.failures, k)
  }

  predicate IsDlq(stream: string) {
    stream == DlqOf(StreamOf(Dashboard)) || stream == DlqOf(StreamOf(Memory))
  }

  ghost predicate Accounted(b: Bus, d: nat) {
    && (forall k :: KeyAccounted(b, d, k))
    && (forall w :: w in b.workers && b.workers[w].Exhausted? ==>
          Justified(b, d, KeyOf(b, b.workers[w].group, b.workers[w].entry)))
    && (forall g, e :: HasEntry(b.log, DlqOf(StreamOf(g)), e) ==> Justified(b, d, (g, e)))
    && (forall e :: e in b.outbox ==> !IsDlq(b.outbox[e].stream))
  }

  predicate TimesWithin(s: Step, d: nat) {
    s.Increment? ==> s.times <= d
  }

  lemma KeyStays(b: Bus, c: Bus, g: Group, i: nat)
    requires Grows(b, c) && Delivered(b, g, i)
    ensures KeyOf(c, g, i) == KeyOf(b, g, i)
  {
    DeliveredStays(b, c, g, i);
  }

  predicate HasEntryPhase(p: Phase) {
    p.HandlerFailed? || p.Exhausted?
  }

  lemma PhaseKeyStays(b: Bus, s: Step, w: nat)
    requires BusInvariant(b) && Enabled(b, s) && w in b.workers && HasEntryPhase(b.workers[w])
    ensures KeyOf(Next(b, s), b.workers[w].group, b.workers[w].entry)
         == KeyOf(b, b.workers[w].group, b.workers[w].entry)
  {
    StepGrows(b, s);
    assert PhaseOk(b, b.workers[w]);
    KeyStays(b, Next(b, s), b.workers[w].group, b.workers[w].entry);
  }

  // The key a handler step is about.
  function SubjectOf(b: Bus, s: Step): Key
    requires Enabled(b, s) && (s.Handle? || s.Increment?)
  {
    match s
    case Handle(w, _) => KeyOf(b, b.workers[w].group, b.workers[w].entries[0])
    case Increment(w, _, _) => KeyOf(b, b.workers[w].group, b.workers[w].entry)
  }

  // How worker w has come by a phase in which it owes something to a failure.
  predicate IsExplained(b: Bus, s: Step, c: Bus, w: nat) {
    (w in c.workers && (c.workers[w].HandlerFailed? || c.workers[w].Exhausted?)) ==>
      || (w in b.workers && c.workers[w] == b.workers[w])
      || (s.Handle? && s.worker == w && c.workers[w].HandlerFailed?)
      || (s.Increment? && s.worker == w && c.workers[w].Exhausted?)
  }

  lemma OutboxWorkerFrame(b: Bus, s: Step, w: nat)
    requires Enabled(b, s) && IsOutboxStep(s)
    ensures IsExplained(b, s, Next(b, s), w)
  {
  }

  lemma HandlingWorkerFrame(b: Bus, s: Step, w: nat)
    requires Enabled(b, s) && IsHandlingStep(s)
    ensures IsExplained(b, s, Next(b, s), w)
  {
  }

  lemma SettlingWorkerFrame(b: Bus, s: Step, w: nat)
    requires Enabled(b, s) && IsSettlingStep(s)
    ensures IsExplained(b, s, Next(b, s), w)
  {
  }

  // Which workers change, and into what.
  lemma WorkerFrame(b: Bus, s: Step, w: nat)
    requires Enabled(b, s)
    ensures IsExplained(b, s, Next(b, s), w)
  {
    if IsOutboxStep(s) {
      OutboxWorkerFrame(b, s, w);
    } else if IsHandlingStep(s) {
      HandlingWorkerFrame(b, s, w);
    } else if IsSettlingStep(s) {
      SettlingWorkerFrame(b, s, w);
    }
  }

  lemma FailedOnShrinks(b: Bus, s: Step, k: Key)
    requires BusInvariant(b) && Enabled(b, s) && !(s.Handle? && !s.ok && SubjectOf(b, s) == k)
    ensures FailedOn(Next(b, s), k) <= FailedOn(b, k)
  {
    var c := Next(b, s);
    forall w | w in FailedOn(c, k)
      ensures w in FailedOn(b, k)
    {
      WorkerFrame(b, s, w);
      if w in b.workers && c.workers[w] == b.workers[w] {
        PhaseKeyStays(b, s, w);
      }
    }
  }

  predicate FailsOn(b: Bus, s: Step, k: Key)
    requires Enabled(b, s)
  {
    s.Handle? && !s.ok && SubjectOf(b, s) == k
  }

  predicate CountsOn(b: Bus, s: Step, k: Key)
    requires Enabled(b, s)
  {
    s.Increment? && SubjectOf(b, s) == k
  }

  lemma OtherStepsKeepFailures(b: Bus, s: Step)
    requires Enabled(b, s) && !s.Handle?
    ensures Next(b, s).maxRetries == b.maxRetries && Next(b, s).failures == b.failures
  {
  }

  // The history counters change only where a failure is seen or counted.
  lemma FailuresFrame(b: Bus, s: Step, k: Key)
    requires Enabled(b, s)
    ensures Next(b, s).maxRetries == b.maxRetries
    ensures Count(Next(b, s).failures, k) == Count(b.failures, k) + if FailsOn(b, s, k) then 1 else 0
  {
    if !s.Handle? {
      OtherStepsKeepFailures(b, s);
    }
  }

  lemma OutboxStepsKeepCounters(b: Bus, s: Step)
    requires Enabled(b, s) && IsOutboxStep(s)
    ensures Next(b, s).increments == b.increments && Next(b, s).counter == b.counter
  {
  }

  lemma OtherStepsKeepCounters(b: Bus, s: Step)
    requires Enabled(b, s) && !s.Increment? && !s.ClearFailure?
    ensures Next(b, s).increments == b.increments && Next(b, s).counter == b.counter
  {
    if IsOutboxStep(s) {
      OutboxStepsKeepCounters(b, s);
    }
  }

  lemma IncrementsFrame(b: Bus, s: Step, k: Key)
    requires Enabled(b, s)
    ensures Count(Next(b, s).increments, k) == Count(b.increments, k) + if CountsOn(b, s, k) then 1 else 0
  {
    if !s.Increment? && !s.ClearFailure? {
      OtherStepsKeepCounters(b, s);
    }
  }

  lemma CounterFrame(b: Bus, s: Step, k: Key)
    requires Enabled(b, s)
    ensures Count(Next(b, s).counter, k) <= Count(b.counter, k) + if CountsOn(b, s, k) then s.times else 0
  {
    if !s.Increment? && !s.ClearFailure? {
      OtherStepsKeepCounters(b, s);
    }
  }

  lemma HistoryFrame(b: Bus, s: Step, k: Key)
    requires Enabled(b, s)
    ensures var c := Next(b, s);
      && c.maxRetries == b.maxRetries
      && Count(c.failures, k) == Count(b.failures, k) + (if FailsOn(b, s, k) then 1 else 0)
      && Count(c.increments, k) == Count(b.increments, k) + (if CountsOn(b, s, k) then 1 else 0)
      && Count(c.counter, k) <= Count(b.counter, k) + (if CountsOn(b, s, k) then s.times else 0)
  {
    FailuresFrame(b, s, k);
    IncrementsFrame(b, s, k);
    CounterFrame(b, s, k);
  }

  lemma Multiples(d: nat, x: nat, y: nat)
    requires x <= y
    ensures d * x <= d * y
  {
    assert d * y == d * x + d * (y - x);
  }

  lemma HandleKeepsAccount(b: Bus, s: Step, d: nat, k: Key)
    requires BusInvariant(b) && Enabled(b, s) && s.Handle? && !s.ok && KeyAccounted(b, d, k) && SubjectOf(b, s) == k
    ensures KeyAccounted(Next(b, s), d, k)
  {
    var c := Next(b, s);
    HistoryFrame(b, s, k);
    forall w | w in FailedOn(c, k)
      ensures w in FailedOn(b, k) + {s.worker}
    {
      WorkerFrame(b, s, w);
      if w != s.worker {
        PhaseKeyStays(b, s, w);
      }
    }
    SubsetIsSmaller(FailedOn(c, k), FailedOn(b, k) + {s.worker});
  }

  lemma IncrementLeavesFailed(b: Bus, s: Step, k: Key)
    requires BusInvariant(b) && Enabled(b, s) && s.Increment? && SubjectOf(b, s) == k
    ensures |FailedOn(Next(b, s), k)| + 1 <= |FailedOn(b, k)|
  {
    FailedOnShrinks(b, s, k);
    WorkerFrame(b, s, s.worker);
    assert s.worker in FailedOn(b, k) && s.worker !in FailedOn(Next(b, s), k);
    SubsetIsSmaller(FailedOn(Next(b, s), k), FailedOn(b, k) - {s.worker});
  }

  lemma IncrementKeepsAccount(b: Bus, s: Step, d: nat, k: Key)
    requires BusInvariant(b) && Enabled(b, s) && s.Increment? && TimesWithin(s, d)
    requires KeyAccounted(b, d, k) && SubjectOf(b, s) == k
    ensures KeyAccounted(Next(b, s), d, k)
  {
    HistoryFrame(b, s, k);
    IncrementLeavesFailed(b, s, k);
    OneMoreIncrement(d, Count(b.counter, k), s.times, Count(b.increments, k));
  }

  lemma OneMoreIncrement(d: nat, counter: nat, times: nat, increments: nat)
    requires counter <= d * increments && times <= d
    ensures counter + times <= d * (increments + 1)
  {
  }

  lemma StepKeepsKeyAccounted(b: Bus, s: Step, d: nat, k: Key)
    requires BusInvariant(b) && Enabled(b, s) && TimesWithin(s, d) && KeyAccounted(b, d, k)
    ensures KeyAccounted(Next(b, s), d, k)
  {
    if s.Handle? && !s.ok && SubjectOf(b, s) == k {
      HandleKeepsAccount(b, s, d, k);
    } else if s.Increment? && SubjectOf(b, s) == k {
      IncrementKeepsAccount(b, s, d, k);
    } else {
      HistoryFrame(b, s, k);
      FailedOnShrinks(b, s, k);
      SubsetIsSmaller(FailedOn(Next(b, s), k), FailedOn(b, k));
    }
  }

  lemma JustifiedStays(b: Bus, s: Step, d: nat, k: Key)
    requires Enabled(b, s) && Justified(b, d, k)
    ensures Justified(Next(b, s), d, k)
  {
    FailuresFrame(b, s, k);
    Multiples(d, Count(b.failures, k), Count(Next(b, s).failures, k));
  }

  lemma AccountJustifies(c: Bus, d: nat, k: Key)
    requires KeyAccounted(c, d, k) && Count(c.counter, k) >= c.maxRetries && Count(c.increments, k) >= 1
    ensures Justified(c, d, k)
  {
    Multiples(d, Count(c.increments, k), Count(c.failures, k));
  }

  lemma ExhaustedMeansCounted(b: Bus, s: Step)
    requires Enabled(b, s) && s.Increment?
    requires s.worker in Next(b, s).workers && Next(b, s).workers[s.worker].Exhausted?
    ensures Count(Next(b, s).counter, SubjectOf(b, s)) >= b.maxRetries == Next(b, s).maxRetries
    ensures Count(Next(b, s).increments, SubjectOf(b, s)) >= 1
  {
  }

  // An INCR that reports max_retries or more has seen enough failures.
  lemma ExhaustedIsJustified(b: Bus, s: Step, d: nat)
    requires BusInvariant(b) && Enabled(b, s) && s.Increment? && TimesWithin(s, d)
    requires KeyAccounted(b, d, SubjectOf(b, s))
    requires s.worker in Next(b, s).workers && Next(b, s).workers[s.worker].Exhausted?
    ensures Justified(Next(b, s), d, SubjectOf(b, s))
  {
    IncrementKeepsAccount(b, s, d, SubjectOf(b, s));
    ExhaustedMeansCounted(b, s);
    AccountJustifies(Next(b, s), d, SubjectOf(b, s));
  }

  lemma StepKeepsExhausted(b: Bus, s: Step, d: nat, w: nat)
    requires BusInvariant(b) && Accounted(b, d) && Enabled(b, s) && TimesWithin(s, d)
    requires w in Next(b, s).workers && Next(b, s).workers[w].Exhausted?
    ensures Justified(Next(b, s), d, KeyOf(Next(b, s), Next(b, s).workers[w].group, Next(b, s).workers[w].entry))
  {
    var c := Next(b, s);
    WorkerFrame(b, s, w);
    if w in b.workers && c.workers[w] == b.workers[w] {
      PhaseKeyStays(b, s, w);
      JustifiedStays(b, s, d, KeyOf(b, b.workers[w].group, b.workers[w].entry));
    } else {
      assert KeyAccounted(b, d, SubjectOf(b, s));
      ExhaustedIsJustified(b, s, d);
    }
  }

  lemma PublisherAddsNoDeadLetter(b: Bus, s: Step)
    requires BusInvariant(b) && Enabled(b, s) && s.Xadd?
    requires forall x :: x in b.outbox ==> !IsDlq(b.outbox[x].stream)
    ensures forall i :: |b.log| <= i < |Next(b, s).log| ==> !IsDlq(Next(b, s).log[i].stream)
  {
    assert PhaseOk(b, b.workers[s.worker]);
    var x := b.workers[s.worker].queue[0];
    assert x in b.outbox;
  }

  lemma NewEntries(b: Bus, s: Step, g: Group, e: EventId)
    requires BusInvariant(b) && Enabled(b, s)
    requires forall x :: x in b.outbox ==> !IsDlq(b.outbox[x].stream)
    requires HasEntry(Next(b, s).log, DlqOf(StreamOf(g)), e) && !HasEntry(b.log, DlqOf(StreamOf(g)), e)
    ensures s.DlqXadd? && b.workers[s.worker].group == g && KeyOf(b, g, b.workers[s.worker].entry) == (g, e)
  {
    var c := Next(b, s);
    var i :| 0 <= i < |c.log| && c.log[i] == Entry(DlqOf(StreamOf(g)), e);
    assert i >= |b.log|;
    if s.Xadd? {
      PublisherAddsNoDeadLetter(b, s);
    }
    DlqNamesDiffer();
  }

  lemma DlqNamesDiffer()
    ensures DlqOf(StreamOf(Dashboard)) != DlqOf(StreamOf(Memory))
  {
    assert DlqOf(StreamOf(Dashboard))[0] == 'e' && DlqOf(StreamOf(Memory))[0] == 'm';
  }

  lemma StepKeepsDeadLetters(b: Bus, s: Step, d: nat, g: Group, e: EventId)
    requires BusInvariant(b) && Accounted(b, d) && Enabled(b, s) && TimesWithin(s, d)
    requires HasEntry(Next(b, s).log, DlqOf(StreamOf(g)), e)
    ensures Justified(Next(b, s), d, (g, e))
  {
    if !HasEntry(b.log, DlqOf(StreamOf(g)), e) {
      NewEntries(b, s, g, e);
    }
    JustifiedStays(b, s, d, (g, e));
  }

  lemma StepKeepsStreams(b: Bus, s: Step)
    requires Enabled(b, s) && forall e :: e in b.outbox ==> !IsDlq(b.outbox[e].stream)
    ensures forall e :: e in Next(b, s).outbox ==> !IsDlq(Next(b, s).outbox[e].stream)
  {
    if !IsOutboxStep(s) {
      ConsumersKeepOutbox(b, s);
    }
  }

  lemma StepKeepsAccounted(b: Bus, s: Step, d: nat)
    requires BusInvariant(b) && Accounted(b, d) && Enabled(b, s) && TimesWithin(s, d)
    ensures Accounted(Next(b, s), d)
  {
    var c := Next(b, s);
    forall k
      ensures KeyAccounted(c, d, k)
    {
      StepKeepsKeyAccounted(b, s, d, k);
    }
    forall w | w in c.workers && c.workers[w].Exhausted?
      ensures Justified(c, d, KeyOf(c, c.workers[w].group, c.workers[w].entry))
    {
      StepKeepsExhausted(b, s, d, w);
    }
    forall g, e | HasEntry(c.log, DlqOf(StreamOf(g)), e)
      ensures Justified(c, d, (g, e))
    {
      StepKeepsDeadLetters(b, s, d, g, e);
    }
    StepKeepsStreams(b, s);
  }

  lemma {:induction false} RunKeepsAccounted(maxRetries: nat, steps: seq<Step>, d: nat)
    requires forall s :: s in steps ==> TimesWithin(s, d)
    ensures Accounted(After(EmptyBus(maxRetries), steps), d)
    ensures After(EmptyBus(maxRetries), steps).maxRetries == maxRetries
  {
    var b := EmptyBus(maxRetries);
    if steps == [] {
      assert forall k :: FailedOn(b, k) == {};
    } else {
      var n := |steps| - 1;
      var before, s := After(b, steps[..n]), steps[n];
      assert s in steps;
      RunKeepsAccounted(maxRetries, steps[..n], d);
      RunKeepsInvariant(b, steps[..n]);
      if Enabled(before, s) {
        StepKeepsAccounted(before, s, d);
        HistoryFrame(before, s, (Dashboard, 0));
      }
    }
  }

  // An event is copied to a dead-letter stream only after enough handling failures. With every
  // INCR taking effect at most once (d = 1) that is max(1, max_retries); a retried INCR that
  // takes effect twice (d = 2) halves it.
  lemma DeadLettersAreDeserved(maxRetries: nat, steps: seq<Step>, d: nat, g: Group, e: EventId)
    requires forall s :: s in steps ==> TimesWithin(s, d)
    ensures var b := After(EmptyBus(maxRetries), steps);
      HasEntry(b.log, DlqOf(StreamOf(g)), e) ==>
        Count(b.failures, (g, e)) >= 1 && d * Count(b.failures, (g, e)) >= maxRetries
  {
    RunKeepsAccounted(maxRetries, steps, d);
  }

  lemma AfterSnoc(b: Bus, steps: seq<Step>, s: Step)
    ensures After(b, steps + [s]) == if Enabled(After(b, steps), s) then Next(After(b, steps), s) else After(b, steps)
  {
    assert (steps + [s])[..|steps|] == steps;
  }

  // ---------- counters in undisturbed runs ----------

  // A bus command that is part of failure handling succeeds; nothing crashes.
  predicate Undisturbed(s: Step) {
    match s
    case Increment(_, _, ok) => ok
    case DlqXadd(_, _, ok) => ok
    case ClearFailure(_, applied) => applied
    case Crash(_) => false
    case _ => true
  }

  predicate IsClearing(b: Bus, p: Phase, k: Key) {
    (p.Exhausted? || p.Settled?) && KeyOf(b, p.group, p.entry) == k
  }

  // Some worker is on its way to clear the counter of k.
  ghost predicate BeingCleared(b: Bus, k: Key) {
    exists w :: w in b.workers && IsClearing(b, b.workers[w], k)
  }

  ghost predicate CountersLow(b: Bus) {
    forall k :: Count(b.counter, k) >= b.maxRetries ==> BeingCleared(b, k)
  }

  lemma ClearingKeyStays(b: Bus, s: Step, w: nat)
    requires BusInvariant(b) && Enabled(b, s) && w in b.workers && (b.workers[w].Exhausted? || b.workers[w].Settled?)
    ensures KeyOf(Next(b, s), b.workers[w].group, b.workers[w].entry)
         == KeyOf(b, b.workers[w].group, b.workers[w].entry)
  {
    StepGrows(b, s);
    assert PhaseOk(b, b.workers[w]);
    KeyStays(b, Next(b, s), b.workers[w].group, b.workers[w].entry);
  }

  lemma ClearingFrame(b: Bus, s: Step, w: nat)
    requires Enabled(b, s) && Undisturbed(s) && w in b.workers && (b.workers[w].Exhausted? || b.workers[w].Settled?)
    ensures var c, p := Next(b, s), b.workers[w];
      || (w in c.workers && (c.workers[w] == p || c.workers[w] == Settled(p.group, p.entry, p.left)))
      || (s.ClearFailure? && Count(c.counter, KeyOf(b, p.group, p.entry)) == 0)
  {
    if ByOther(s, w) {
      OtherWorkersStay(b, s, w);
    } else {
      assert s.DlqXadd? || s.ClearFailure?;
    }
  }

  lemma ClearerStays(b: Bus, s: Step, w: nat, k: Key)
    requires BusInvariant(b) && Enabled(b, s) && Undisturbed(s)
    requires w in b.workers && IsClearing(b, b.workers[w], k)
    ensures var c := Next(b, s);
      (w in c.workers && IsClearing(c, c.workers[w], k)) || (s.ClearFailure? && Count(c.counter, k) == 0)
  {
    ClearingKeyStays(b, s, w);
    ClearingFrame(b, s, w);
  }

  lemma StepKeepsCountersLow(b: Bus, s: Step, k: Key)
    requires BusInvariant(b) && CountersLow(b) && b.maxRetries > 0 && Enabled(b, s) && Undisturbed(s)
    requires Count(Next(b, s).counter, k) >= b.maxRetries
    ensures BeingCleared(Next(b, s), k)
  {
    var c := Next(b, s);
    CounterFrame(b, s, k);
    if s.Increment? && SubjectOf(b, s) == k {
      assert IsClearing(c, c.workers[s.worker], k);
    } else {
      var w :| w in b.workers && IsClearing(b, b.workers[w], k);
      ClearerStays(b, s, w, k);
      assert w in c.workers && IsClearing(c, c.workers[w], k);
    }
  }

  // Over every interleaving without crashes and without failing commands in the failure
  // handling: whenever no worker is on its way to clear a counter, it is below max_retries.
  lemma {:induction false} CountersStayLow(maxRetries: nat, steps: seq<Step>)
    requires maxRetries > 0 && forall s :: s in steps ==> Undisturbed(s)
    ensures var b := After(EmptyBus(maxRetries), steps);
      b.maxRetries == maxRetries && CountersLow(b)
  {
    if steps != [] {
      var n := |steps| - 1;
      var before, s := After(EmptyBus(maxRetries), steps[..n]), steps[n];
      assert s in steps;
      CountersStayLow(maxRetries, steps[..n]);
      RunKeepsInvariant(EmptyBus(maxRetries), steps[..n]);
      if Enabled(before, s) {
        FailuresFrame(before, s, (Dashboard, 0));
        forall k | Count(Next(before, s).counter, k) >= maxRetries
          ensures BeingCleared(Next(before, s), k)
        {
          StepKeepsCountersLow(before, s, k);
        }
      }
    }
  }
}
