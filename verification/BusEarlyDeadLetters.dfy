/** The bound on dead-lettering is attained: schedules that bring an event to the dead-letter
    stream after as few failures as retried INCRs allow, and when that is fewer than max_retries. */
module BusEarlyDeadLetters {
  import opened BusDeadLetters
  import opened RedisBus

  const EVENT: EventId := 0
  const KEY: Key := (Dashboard, EVENT)
  const ROW := OutboxRow("events", false, 0)
  const ENTRY := Entry("events", EVENT)

  lemma {:induction false} AfterConcat(b: Bus, first: seq<Step>, second: seq<Step>)
    ensures After(b, first + second) == After(After(b, first), second)
  {
    if second == [] {
      assert first + second == first;
    } else {
      var n := |second| - 1;
      AfterConcat(b, first, second[..n]);
      AfterSnoc(b, first + second[..n], second[n]);
      assert first + second == first + second[..n] + [second[n]];
    }
  }

  // ---------- publishing the event ----------

  function OneAdded(m: nat): Bus {
    EmptyBus(m).(outbox := map[EVENT := ROW], log := [ENTRY], workers := map[0 := Published(EVENT, [])])
  }

  function OnePublished(m: nat): Bus {
    OneAdded(m).(outbox := map[EVENT := OutboxRow("events", true, 1)], workers := map[])
  }

  const ENQUEUE := Enqueue(EVENT, "events")
  const FETCH := FetchPending(0, [EVENT])
  const ADD := Xadd(0, 1, true)
  const MARK := MarkPublished(0, true, true)
  const DONE := EndTick(0)
  const PUBLISH: seq<Step> := [ENQUEUE] + [FETCH] + [ADD] + [MARK] + [DONE]

  lemma AddingOne(m: nat)
    ensures After(EmptyBus(m), [ENQUEUE] + [FETCH] + [ADD]) == OneAdded(m)
  {
    var b0 := EmptyBus(m);
    assert "events" != DlqOf(StreamOf(Dashboard)) && "events" != DlqOf(StreamOf(Memory));
    AfterSnoc(b0, [], ENQUEUE);
    assert [] + [ENQUEUE] == [ENQUEUE];
    AfterSnoc(b0, [ENQUEUE], FETCH);
    AfterSnoc(b0, [ENQUEUE] + [FETCH], ADD);
    var b3 := After(b0, [ENQUEUE] + [FETCH] + [ADD]);
    assert [EVENT][1..] == [];
    assert b3.log == [ENTRY];
    assert b3.workers == map[0 := Published(EVENT, [])];
  }

  lemma PublishingOne(m: nat)
    ensures After(EmptyBus(m), PUBLISH) == OnePublished(m)
  {
    AddingOne(m);
    AfterSnoc(EmptyBus(m), [ENQUEUE] + [FETCH] + [ADD], MARK);
    AfterSnoc(EmptyBus(m), [ENQUEUE] + [FETCH] + [ADD] + [MARK], DONE);
  }

  // ---------- rounds of failing ----------

  function Counted(n: nat): map<Key, nat> {
    if n == 0 then map[] else map[KEY := n]
  }

  // The dashboard's worker holds the event, which has failed k times; each failure counted d.
  function Held(m: nat, k: nat, d: nat): Bus {
    OnePublished(m).(cursor := map[Dashboard := 1], pending := {(Dashboard, 0)},
                     workers := map[0 := Consuming(Dashboard, [0])],
                     counter := Counted(d * k), failures := Counted(k), increments := Counted(k))
  }

  const READ := ReadGroup(0, Dashboard, 1)
  const FAIL := Handle(0, false)
  const RECLAIM := Claim(0, Dashboard, [0])
  const COPY := DlqXadd(0, 1, true)

  lemma ReadingOne(m: nat, d: nat)
    ensures After(EmptyBus(m), PUBLISH + [READ]) == Held(m, 0, d)
  {
    PublishingOne(m);
    AfterSnoc(EmptyBus(m), PUBLISH, READ);
    var b := After(EmptyBus(m), PUBLISH + [READ]);
    assert Positions(OnePublished(m).log, "events", 0, 1) == [0];
    assert b.pending == {(Dashboard, 0)};
    assert b == Held(m, 0, d);
  }

  // The next failure, not yet counted and then counted.
  function Failing(m: nat, k: nat, d: nat): Bus {
    Held(m, k, d).(workers := map[0 := HandlerFailed(Dashboard, 0, [])], failures := Counted(k + 1))
  }

  function Recounted(m: nat, k: nat, d: nat, p: Phase): Bus {
    Failing(m, k, d).(workers := map[0 := p], counter := Counted(d * (k + 1)), increments := Counted(k + 1))
  }

  lemma FailOnce(m: nat, k: nat, d: nat)
    ensures Enabled(Held(m, k, d), FAIL) && Next(Held(m, k, d), FAIL) == Failing(m, k, d)
  {
    assert [0][1..] == [];
    assert Next(Held(m, k, d), FAIL).workers == Failing(m, k, d).workers;
    assert Next(Held(m, k, d), FAIL).failures == Counted(k + 1);
  }

  function AfterCount(m: nat, k: nat, d: nat): Phase {
    if d * (k + 1) >= m then Exhausted(Dashboard, 0, []) else Consuming(Dashboard, [])
  }

  lemma CountOnce(m: nat, k: nat, d: nat)
    requires d > 0
    ensures Enabled(Failing(m, k, d), Increment(0, d, true))
    ensures Next(Failing(m, k, d), Increment(0, d, true)) == Recounted(m, k, d, AfterCount(m, k, d))
  {
    var b, c := Failing(m, k, d), Next(Failing(m, k, d), Increment(0, d, true));
    assert d * (k + 1) == d * k + d && d * k >= 0;
    assert k == 0 ==> d * k == 0;
    assert Count(b.counter, KEY) == d * k;
    assert c.counter == Counted(d * (k + 1));
    assert c.increments == Counted(k + 1);
    assert c.workers == map[0 := AfterCount(m, k, d)];
  }

  function Round(d: nat): seq<Step> {
    [FAIL] + [Increment(0, d, true)] + [DONE] + [RECLAIM]
  }

  lemma FailAndCount(m: nat, k: nat, d: nat)
    requires d > 0
    ensures After(Held(m, k, d), [FAIL] + [Increment(0, d, true)]) == Recounted(m, k, d, AfterCount(m, k, d))
  {
    AfterSnoc(Held(m, k, d), [], FAIL);
    assert [] + [FAIL] == [FAIL];
    FailOnce(m, k, d);
    AfterSnoc(Held(m, k, d), [FAIL], Increment(0, d, true));
    CountOnce(m, k, d);
  }

  // Below max_retries the entry stays pending and is claimed again.
  lemma RoundReturns(m: nat, k: nat, d: nat)
    requires d > 0 && d * (k + 1) < m
    ensures After(Held(m, k, d), Round(d)) == Held(m, k + 1, d)
  {
    var b := Held(m, k, d);
    FailAndCount(m, k, d);
    AfterSnoc(b, [FAIL] + [Increment(0, d, true)], DONE);
    AfterSnoc(b, [FAIL] + [Increment(0, d, true)] + [DONE], RECLAIM);
    var c := After(b, [FAIL] + [Increment(0, d, true)] + [DONE]);
    assert c.workers == map[];
    assert c == Held(m, k + 1, d).(workers := map[]);
    assert Enabled(c, RECLAIM);
    assert Next(c, RECLAIM).workers == map[0 := Consuming(Dashboard, [0])];
  }

  ghost predicate AllWithin(steps: seq<Step>, d: nat) {
    forall s :: s in steps ==> TimesWithin(s, d)
  }

  lemma {:induction false} Rounds(m: nat, k: nat, d: nat) returns (steps: seq<Step>)
    requires d > 0 && (k > 0 ==> d * k < m)
    ensures AllWithin(steps, d) && After(EmptyBus(m), steps) == Held(m, k, d)
  {
    if k == 0 {
      steps := PUBLISH + [READ];
      ReadingOne(m, d);
    } else {
      assert d * (k - 1) <= d * k;
      var before := Rounds(m, k - 1, d);
      RoundReturns(m, k - 1, d);
      AfterConcat(EmptyBus(m), before, Round(d));
      steps := before + Round(d);
    }
  }

  lemma LastRound(m: nat, k: nat, d: nat)
    requires d > 0 && d * (k + 1) >= m
    ensures var b := After(Held(m, k, d), [FAIL] + [Increment(0, d, true)] + [COPY]);
      HasEntry(b.log, DlqOf(StreamOf(Dashboard)), EVENT) && Count(b.failures, KEY) == k + 1
  {
    FailAndCount(m, k, d);
    AfterSnoc(Held(m, k, d), [FAIL] + [Increment(0, d, true)], COPY);
    var b := After(Held(m, k, d), [FAIL] + [Increment(0, d, true)] + [COPY]);
    assert b.log[1] == Entry(DlqOf("events"), EVENT);
  }

  // ---------- the results ----------

  // For every max_retries and every multiplicity d the least number of failures that
  // DeadLettersAreDeserved allows, max_retries / d rounded up, suffices.
  lemma DeadLetterBoundIsTight(m: nat, d: nat, failures: nat) returns (steps: seq<Step>)
    requires d > 0 && failures > 0
    requires d * (failures - 1) < m || failures == 1
    requires m <= d * failures
    ensures AllWithin(steps, d)
    ensures var b := After(EmptyBus(m), steps);
      HasEntry(b.log, DlqOf(StreamOf(Dashboard)), EVENT) && Count(b.failures, KEY) == failures
  {
    var before := Rounds(m, failures - 1, d);
    LastRound(m, failures - 1, d);
    steps := before + ([FAIL] + [Increment(0, d, true)] + [COPY]);
    AfterConcat(EmptyBus(m), before, [FAIL] + [Increment(0, d, true)] + [COPY]);
  }

  // Counting every failure twice, as a retried INCR may, halves max_retries.
  lemma DoubleCountingDeadLettersEarly(maxRetries: nat) returns (steps: seq<Step>)
    requires maxRetries >= 2
    ensures AllWithin(steps, 2)
    ensures var b := After(EmptyBus(maxRetries), steps);
      HasEntry(b.log, DlqOf(StreamOf(Dashboard)), EVENT) && Count(b.failures, KEY) == (maxRetries + 1) / 2
  {
    steps := DeadLetterBoundIsTight(maxRetries, 2, (maxRetries + 1) / 2);
  }

  // Every dead-lettered event has failed at least max_retries times.
  ghost predicate NeverEarly(maxRetries: nat, d: nat) {
    forall steps, g, e ::
      AllWithin(steps, d) && HasEntry(After(EmptyBus(maxRetries), steps).log, DlqOf(StreamOf(g)), e) ==>
      Count(After(EmptyBus(maxRetries), steps).failures, (g, e)) >= maxRetries
  }

  function LeastFailures(m: nat, d: nat): (n: nat)
    requires d > 0 && m > 0
    ensures n > 0 && d * (n - 1) < m <= d * n
  {
    if m <= d then 1 else
      var n := LeastFailures(m - d, d) + 1;
      assert d * n == d * (n - 1) + d && d * (n - 1) == d * (n - 2) + d;
      n
  }

  // The exact condition: no event is dead-lettered early if and only if an INCR takes effect at
  // most once or a single failure is enough anyway.
  lemma NeverEarlyIff(maxRetries: nat, d: nat)
    ensures NeverEarly(maxRetries, d) <==> d <= 1 || maxRetries <= 1
  {
    if d <= 1 || maxRetries <= 1 {
      forall steps, g, e |
        AllWithin(steps, d) && HasEntry(After(EmptyBus(maxRetries), steps).log, DlqOf(StreamOf(g)), e)
        ensures Count(After(EmptyBus(maxRetries), steps).failures, (g, e)) >= maxRetries
      {
        DeadLettersAreDeserved(maxRetries, steps, d, g, e);
        OnceOrSingle(maxRetries, d, Count(After(EmptyBus(maxRetries), steps).failures, (g, e)));
      }
    } else {
      var n := LeastFailures(maxRetries, d);
      var steps := DeadLetterBoundIsTight(maxRetries, d, n);
      FewerThanRetries(maxRetries, d, n);
      assert Count(After(EmptyBus(maxRetries), steps).failures, (Dashboard, EVENT)) < maxRetries;
    }
  }

  lemma OnceOrSingle(m: nat, d: nat, n: nat)
    requires (d <= 1 || m <= 1) && n >= 1 && d * n >= m
    ensures n >= m
  {
    if d <= 1 {
      assert d * n <= n;
    }
  }

  lemma FewerThanRetries(m: nat, d: nat, n: nat)
    requires m >= 2 && d >= 2 && n > 0 && d * (n - 1) < m
    ensures n < m
  {
    assert d * (n - 1) >= 2 * (n - 1);
  }
}
