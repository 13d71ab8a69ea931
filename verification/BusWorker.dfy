/** The ticks of the bus workers in place: each loop issues the commands of RedisBus one after
    another, and gives up at the first one whose error the code propagates. */
module BusWorker {
  import opened RedisBus
  import opened Text

  // Every step of the list is enabled when its turn comes.
  predicate IsRun(b: Bus, steps: seq<Step>) {
    if steps == [] then true
    else IsRun(b, steps[..|steps| - 1]) && Enabled(After(b, steps[..|steps| - 1]), steps[|steps| - 1])
  }

  predicate ByWorker(s: Step, w: nat) {
    match s
    case Enqueue(_, _) => false
    case Trim(_) => false
    case _ => s.worker == w
  }

  lemma RunSnoc(b: Bus, steps: seq<Step>, s: Step)
    requires IsRun(b, steps) && Enabled(After(b, steps), s)
    ensures IsRun(b, steps + [s]) && After(b, steps + [s]) == Next(After(b, steps), s)
  {
    assert (steps + [s])[..|steps|] == steps;
  }

  predicate RowMoved(b: Bus, c: Bus, e: EventId) {
    && e in b.outbox && e in c.outbox
    && (c.outbox[e].published || c.outbox[e].attempts > b.outbox[e].attempts)
  }

  // No attempt is forgotten, and every listed row has moved.
  ghost predicate RowsMoved(b: Bus, c: Bus, events: seq<EventId>) {
    && (forall e :: e in b.outbox ==> e in c.outbox && c.outbox[e].attempts >= b.outbox[e].attempts)
    && (forall e :: e in events ==> RowMoved(b, c, e))
  }

  ghost predicate OnlyRowChanges(c: Bus, d: Bus, e: EventId) {
    && c.outbox.Keys == d.outbox.Keys && e in c.outbox
    && (forall x :: x in c.outbox && x != e ==> d.outbox[x] == c.outbox[x])
    && d.outbox[e].attempts >= c.outbox[e].attempts
  }

  lemma OneMoreRowMoved(b: Bus, c: Bus, d: Bus, events: seq<EventId>, e: EventId)
    requires RowsMoved(b, c, events) && OnlyRowChanges(c, d, e) && RowMoved(c, d, e) && e in b.outbox
    ensures RowsMoved(b, d, events + [e])
  {
    forall x | x in events + [e]
      ensures RowMoved(b, d, x)
    {
      if x != e {
        assert RowMoved(b, c, x);
      }
    }
  }

  lemma FrontAndRest<T>(s: seq<T>, k: nat)
    requires k < |s|
    ensures s[k..] == [s[k]] + s[k + 1..]
    ensures s[..k + 1] == s[..k] + [s[k]]
  {
  }

  predicate EntryMoved(b: Bus, c: Bus, g: Group, i: nat) {
    (g, i) !in c.pending || Count(c.failures, KeyOf(c, g, i)) > Count(b.failures, KeyOf(c, g, i))
  }

  // The bus after a copy, said without the step.
  ghost predicate IsCopied(b: Bus, c: Bus, w: nat, ok: bool) {
    && w in b.workers && b.workers[w].Exhausted?
    && b.log <= c.log && c.failures == b.failures && c.pending == b.pending && c.cursor == b.cursor
    && var Exhausted(g, i, left) := b.workers[w];
       if ok then w in c.workers && c.workers[w] == Settled(g, i, left)
                  && (i < |b.log| ==> HasEntry(c.log, DlqOf(StreamOf(g)), b.log[i].event))
       else w !in c.workers
  }

  lemma DlqXaddCopies(b: Bus, w: nat, copies: nat, ok: bool)
    requires Enabled(b, DlqXadd(w, copies, ok))
    ensures IsCopied(b, Next(b, DlqXadd(w, copies, ok)), w, ok)
  {
    var Exhausted(g, i, left) := b.workers[w];
    if ok && i < |b.log| {
      assert Next(b, DlqXadd(w, copies, ok)).log[|b.log|] == Entry(DlqOf(StreamOf(g)), b.log[i].event);
    }
  }

  // What consuming one entry does to the rest of the bus.
  ghost predicate Onward(b: Bus, c: Bus) {
    && b.log <= c.log && c.pending <= b.pending
    && forall x :: Count(c.failures, x) >= Count(b.failures, x)
  }

  ghost predicate AllMoved(b: Bus, c: Bus, g: Group, entries: seq<nat>) {
    forall i :: i in entries ==> i < |c.log| && EntryMoved(b, c, g, i)
  }

  ghost predicate HasConsumed(b: Bus, c: Bus, g: Group, entries: seq<nat>, k: nat) {
    k <= |entries| && Onward(b, c) && AllMoved(b, c, g, entries[..k])
  }

  lemma OneMoreMoved(b: Bus, c: Bus, d: Bus, g: Group, entries: seq<nat>, i: nat)
    requires Onward(b, c) && Onward(c, d) && AllMoved(b, c, g, entries)
    requires i < |c.log| && EntryMoved(c, d, g, i)
    ensures Onward(b, d) && AllMoved(b, d, g, entries + [i])
  {
    forall j | j in entries + [i]
      ensures j < |d.log| && EntryMoved(b, d, g, j)
    {
      assert j < |c.log| && KeyOf(d, g, j) == KeyOf(c, g, j);
      var k := KeyOf(c, g, j);
      assert Count(d.failures, k) >= Count(c.failures, k) >= Count(b.failures, k);
    }
  }

  // How a worker goes on once it has counted a failure.
  function AfterFailure(b: Bus, g: Group, i: nat, left: seq<nat>): Phase {
    if Count(b.counter, KeyOf(b, g, i)) >= b.maxRetries then Exhausted(g, i, left) else Consuming(g, left)
  }

  // Does the code give up the tick on this command's result? Failing to add an entry to a stream
  // or to clear a counter does not, nor does a failing handler.
  predicate ReportsError(s: Step) {
    match s
    case MarkPublished(_, _, ok) => !ok
    case RecordFailure(_, _, ok) => !ok
    case Increment(_, _, ok) => !ok
    case DlqXadd(_, _, ok) => !ok
    case MarkProcessed(_, ok) => !ok
    case Ack(_, _, ok) => !ok
    case _ => false
  }

  // The commands issued between two points: none of them reported an error, except the very last
  // one when the outcome is a failure.
  ghost predicate StopsAtError(before: seq<Step>, after: seq<Step>, ok: bool) {
    && before <= after
    && (forall k :: |before| <= k < |after| ==> (ReportsError(after[k]) <==> !ok && k == |after| - 1))
    && (!ok ==> |after| > |before|)
  }

  lemma StopsLater(a: seq<Step>, b: seq<Step>, c: seq<Step>, ok: bool)
    requires StopsAtError(a, b, true) && StopsAtError(b, c, ok)
    ensures StopsAtError(a, c, ok)
  {
  }

  // The entries the group has not been given yet, up to where the read goes, in order.
  ghost predicate AreUnread(b: Bus, g: Group, readTo: nat, entries: seq<nat>) {
    && readTo <= |b.log| && Increases(entries)
    && forall i :: i in entries <==> Cursor(b, g) <= i < readTo && b.log[i].stream == StreamOf(g)
  }

  lemma {:induction false} PositionsIncrease(log: seq<Entry>, stream: string, from: nat, to: nat)
    requires from <= to <= |log|
    ensures Increases(Positions(log, stream, from, to))
  {
    if from < to {
      PositionsIncrease(log, stream, from, to - 1);
      var init := Positions(log, stream, from, to - 1);
      forall i | 0 <= i < |init|
        ensures init[i] < to - 1
      {
        assert init[i] in init;
      }
    }
  }

  // Handled, copied to the dead-letter stream, or with one more failure on record.
  ghost predicate IsDealtWith(b: Bus, c: Bus, g: Group, i: nat) {
    i < |c.log| &&
    (IsSettled(c, g, c.log[i].event) || Count(c.failures, (g, c.log[i].event)) > Count(b.failures, (g, c.log[i].event)))
  }

  lemma MovedIsDealtWith(b: Bus, c: Bus, g: Group, i: nat)
    requires BusInvariant(c) && Delivered(c, g, i) && EntryMoved(b, c, g, i)
    ensures IsDealtWith(b, c, g, i)
  {
  }

  lemma AllDealtWith(was: Bus, fetched: Bus, b: Bus, g: Group, entries: seq<nat>)
    requires BusInvariant(b) && fetched.log <= b.log && fetched.failures == was.failures && b.cursor == fetched.cursor
    requires AllDelivered(fetched, g, entries) && AllMoved(fetched, b, g, entries)
    ensures AllMoved(was, b, g, entries)
    ensures forall i :: i in entries ==> IsDealtWith(was, b, g, i)
  {
    forall i | i in entries
      ensures IsDealtWith(was, b, g, i)
    {
      assert Delivered(fetched, g, i) && EntryMoved(fetched, b, g, i);
      MovedIsDealtWith(was, b, g, i);
    }
  }

  // What a successful tick that found nothing stale and read to the end of the log means: no entry
  // of the stream is left undelivered, and every entry read was handled, dead-lettered, or has one
  // more failure on record.
  lemma NothingIsLeftUnread(b: Bus, c: Bus, g: Group, entries: seq<nat>, i: nat)
    requires AreUnread(b, g, |b.log|, entries) && Cursor(c, g) == |b.log| && b.log <= c.log
    requires forall j :: j in entries ==> IsDealtWith(b, c, g, j)
    requires i < |b.log| && b.log[i].stream == StreamOf(g)
    ensures Delivered(c, g, i)
    ensures i >= Cursor(b, g) ==> IsDealtWith(b, c, g, i)
  {
  }

  class Worker {
    const id: nat
    var bus: Bus
    ghost var start: Bus
    ghost var steps: seq<Step>

    // The worker has brought the bus from where the tick began to where it is now, by its
    // own commands alone.
    ghost predicate OnTrack()
      reads this
    {
      && IsRun(start, steps) && bus == After(start, steps)
      && forall s :: s in steps ==> ByWorker(s, id)
    }

    // The commands since a point at which `earlier` had been issued and the bus was `was`.
    ghost predicate Proceeds(was: Bus, earlier: seq<Step>, ok: bool)
      reads this
    {
      OnTrack() && StopsAtError(earlier, steps, ok) && (BusInvariant(was) ==> BusInvariant(bus))
    }

    // In the tick, at this phase, or out of it.
    predicate IsAt(inTick: bool, p: Phase)
      reads this
    {
      if inTick then id in bus.workers && bus.workers[id] == p else id !in bus.workers
    }

    constructor (id: nat, bus: Bus)
      ensures this.id == id && this.bus == bus && start == bus && steps == [] && OnTrack()
    {
      this.id := id;
      this.bus := bus;
      start := bus;
      steps := [];
    }

    method Perform(s: Step)
      requires OnTrack() && Enabled(bus, s) && ByWorker(s, id)
      modifies this
      ensures start == old(start) && steps == old(steps) + [s]
      ensures bus == Next(old(bus), s)
      ensures Proceeds(old(bus), old(steps), !ReportsError(s))
    {
      RunSnoc(start, steps, s);
      if BusInvariant(bus) {
        StepKeepsInvariant(bus, s);
      }
      bus := Next(bus, s);
      steps := steps + [s];
    }

    method Begin(fetched: seq<EventId>)
      requires OnTrack() && Enabled(bus, FetchPending(id, fetched))
      modifies this
      ensures start == old(start) && Proceeds(old(bus), old(steps), true)
      ensures bus.outbox == old(bus.outbox) && IsAt(true, Publishing(fetched))
    {
      Perform(FetchPending(id, fetched));
    }

    method End()
      requires OnTrack() && Enabled(bus, EndTick(id))
      modifies this
      ensures start == old(start) && Proceeds(old(bus), old(steps), true)
      ensures bus == old(bus).(workers := old(bus.workers) - {id})
    {
      Perform(EndTick(id));
    }

    // OutboxPublisher::tick_once, for the rows the query returned. It fails only when saving the
    // result of a publication reports an error, and then stops there.
    method PublisherTick(fetched: seq<EventId>) returns (ok: bool)
      requires OnTrack() && Enabled(bus, FetchPending(id, fetched))
      modifies this
      ensures start == old(start) && Proceeds(old(bus), old(steps), ok)
      ensures id !in bus.workers
      ensures ok ==> forall e :: e in fetched ==> RowMoved(old(bus), bus, e)
    {
      Begin(fetched);
      ghost var begun := steps;
      ok := PublishAll(fetched);
      StopsLater(old(steps), begun, steps, ok);
      if ok {
        ghost var published := steps;
        End();
        StopsLater(old(steps), published, steps, true);
      }
    }

    method PublishAll(fetched: seq<EventId>) returns (ok: bool)
      requires OnTrack() && IsAt(true, Publishing(fetched))
      requires forall e :: e in fetched ==> e in bus.outbox
      modifies this
      ensures start == old(start) && Proceeds(old(bus), old(steps), ok)
      ensures IsAt(ok, Publishing([]))
      ensures ok ==> forall e :: e in fetched ==> RowMoved(old(bus), bus, e)
    {
      ghost var was := bus;
      var k := 0;
      while k < |fetched|
        invariant k <= |fetched|
        invariant start == old(start) && Proceeds(was, old(steps), true)
        invariant IsAt(true, Publishing(fetched[k..]))
        invariant RowsMoved(was, bus, fetched[..k])
      {
        ok := PublishNext(was, old(steps), fetched, k);
        if !ok {
          return;
        }
        k := k + 1;
      }
      assert fetched[..|fetched|] == fetched;
      return true;
    }

    // One turn of the loop.
    method PublishNext(ghost was: Bus, ghost earlier: seq<Step>, fetched: seq<EventId>, k: nat) returns (saved: bool)
      requires k < |fetched| && Proceeds(was, earlier, true) && IsAt(true, Publishing(fetched[k..]))
      requires RowsMoved(was, bus, fetched[..k]) && fetched[k] in was.outbox
      modifies this
      ensures start == old(start) && Proceeds(was, earlier, saved)
      ensures IsAt(saved, Publishing(fetched[k + 1..]))
      ensures saved ==> RowsMoved(was, bus, fetched[..k + 1])
    {
      ghost var before, issued := bus, steps;
      FrontAndRest(fetched, k);
      saved := PublishOne(fetched[k], fetched[k + 1..]);
      StopsLater(earlier, issued, steps, saved);
      if saved {
        OneMoreRowMoved(was, before, bus, fetched[..k], fetched[k]);
      }
    }

    method PublishOne(e: EventId, rest: seq<EventId>) returns (saved: bool)
      requires OnTrack() && IsAt(true, Publishing([e] + rest)) && e in bus.outbox
      modifies this
      ensures start == old(start) && Proceeds(old(bus), old(steps), saved)
      ensures OnlyRowChanges(old(bus), bus, e)
      ensures IsAt(saved, Publishing(rest))
      ensures saved ==> RowMoved(old(bus), bus, e)
    {
      var sent := Send(e, rest);
      ghost var issued := steps;
      saved := SaveResult(e, rest, sent);
      StopsLater(old(steps), issued, steps, saved);
    }

    // publish_to_stream: the entry may be added although the caller sees an error.
    method Send(e: EventId, rest: seq<EventId>) returns (sent: bool)
      requires OnTrack() && IsAt(true, Publishing([e] + rest))
      modifies this
      ensures start == old(start) && Proceeds(old(bus), old(steps), true)
      ensures bus.outbox == old(bus.outbox)
      ensures IsAt(true, if sent then Published(e, rest) else PublishFailed(e, rest))
    {
      var copies: nat :| true;
      sent := *;
      if sent {
        copies := copies + 1;
      }
      assert ([e] + rest)[1..] == rest;
      Perform(Xadd(id, copies, sent));
    }

    // mark_outbox_published or record_outbox_failure, which may take effect although the caller
    // sees an error.
    method SaveResult(e: EventId, rest: seq<EventId>, sent: bool) returns (saved: bool)
      requires OnTrack() && IsAt(true, if sent then Published(e, rest) else PublishFailed(e, rest)) && e in bus.outbox
      modifies this
      ensures start == old(start) && Proceeds(old(bus), old(steps), saved)
      ensures OnlyRowChanges(old(bus), bus, e)
      ensures IsAt(saved, Publishing(rest))
      ensures saved ==> RowMoved(old(bus), bus, e)
    {
      var applied: bool := *;
      saved := *;
      if saved {
        applied := true;
      }
      if sent {
        Perform(MarkPublished(id, applied, saved));
      } else {
        Perform(RecordFailure(id, applied, saved));
      }
    }

    // MemoryConsumer::tick_once and DashboardProjectionConsumer::tick_once, for the stale entries
    // the claim returned. Without any, the unread entries are read, up to where the read goes. The
    // tick fails only when a command reports an error, and then stops there.
    method ConsumerTick(g: Group, claimed: seq<nat>, readTo: nat) returns (ok: bool, entries: seq<nat>)
      requires OnTrack() && BusInvariant(bus)
      requires Enabled(bus, Claim(id, g, claimed)) && Enabled(bus, ReadGroup(id, g, readTo))
      modifies this
      ensures start == old(start) && Proceeds(old(bus), old(steps), ok)
      ensures id !in bus.workers
      ensures claimed != [] ==> entries == claimed && bus.cursor == old(bus.cursor)
      ensures claimed == [] ==> AreUnread(old(bus), g, readTo, entries) && Cursor(bus, g) == readTo
      ensures ok ==> old(bus.log) <= bus.log && AllMoved(old(bus), bus, g, entries)
      ensures ok ==> forall i :: i in entries ==> IsDealtWith(old(bus), bus, g, i)
    {
      entries := FetchEntries(g, claimed, readTo);
      ghost var fetched, issued := bus, steps;
      ok := ConsumeAll(g, entries);
      StopsLater(old(steps), issued, steps, ok);
      if ok {
        ghost var consumed := steps;
        End();
        StopsLater(old(steps), consumed, steps, true);
        AllDealtWith(old(bus), fetched, bus, g, entries);
      }
    }

    method FetchEntries(g: Group, claimed: seq<nat>, readTo: nat) returns (entries: seq<nat>)
      requires OnTrack() && BusInvariant(bus)
      requires Enabled(bus, Claim(id, g, claimed)) && Enabled(bus, ReadGroup(id, g, readTo))
      modifies this
      ensures start == old(start) && Proceeds(old(bus), old(steps), true)
      ensures bus.log == old(bus.log) && bus.failures == old(bus.failures)
      ensures IsAt(true, Consuming(g, entries))
      ensures claimed != [] ==> entries == claimed && bus.cursor == old(bus.cursor)
      ensures claimed == [] ==> AreUnread(old(bus), g, readTo, entries) && Cursor(bus, g) == readTo
      ensures AllDelivered(bus, g, entries)
    {
      if claimed != [] {
        assert forall i :: i in claimed ==> Delivered(bus, g, i);
        Perform(Claim(id, g, claimed));
        return claimed;
      }
      entries := Positions(bus.log, StreamOf(g), Cursor(bus, g), readTo);
      PositionsIncrease(bus.log, StreamOf(g), Cursor(bus, g), readTo);
      Perform(ReadGroup(id, g, readTo));
    }

    method ConsumeAll(g: Group, entries: seq<nat>) returns (ok: bool)
      requires OnTrack() && IsAt(true, Consuming(g, entries))
      requires forall i :: i in entries ==> i < |bus.log|
      modifies this
      ensures start == old(start) && Proceeds(old(bus), old(steps), ok)
      ensures IsAt(ok, Consuming(g, [])) && bus.cursor == old(bus.cursor)
      ensures ok ==> Onward(old(bus), bus) && AllMoved(old(bus), bus, g, entries)
    {
      ghost var fetched := bus;
      for k := 0 to |entries|
        invariant start == old(start) && Proceeds(fetched, old(steps), true)
        invariant IsAt(true, Consuming(g, entries[k..])) && bus.cursor == fetched.cursor
        invariant HasConsumed(fetched, bus, g, entries, k)
      {
        assert entries[k] in entries;
        ok := ConsumeNext(fetched, old(steps), g, entries, k);
        if !ok {
          return;
        }
      }
      assert entries[..|entries|] == entries;
      return true;
    }

    // One turn of the loop.
    method ConsumeNext(ghost fetched: Bus, ghost earlier: seq<Step>, g: Group, entries: seq<nat>, k: nat)
        returns (done: bool)
      requires k < |entries| && Proceeds(fetched, earlier, true) && IsAt(true, Consuming(g, entries[k..]))
      requires HasConsumed(fetched, bus, g, entries, k) && entries[k] < |fetched.log|
      modifies this
      ensures start == old(start) && Proceeds(fetched, earlier, done)
      ensures IsAt(done, Consuming(g, entries[k + 1..])) && bus.cursor == old(bus.cursor)
      ensures done ==> HasConsumed(fetched, bus, g, entries, k + 1)
    {
      FrontAndRest(entries, k);
      ghost var before, issued := bus, steps;
      done := ConsumeOne(g, entries[k], entries[k + 1..]);
      StopsLater(earlier, issued, steps, done);
      if done {
        OneMoreMoved(fetched, before, bus, g, entries[..k], entries[k]);
      }
    }

    method ConsumeOne(g: Group, i: nat, left: seq<nat>) returns (done: bool)
      requires OnTrack() && IsAt(true, Consuming(g, [i] + left)) && i < |bus.log|
      modifies this
      ensures start == old(start) && Proceeds(old(bus), old(steps), done)
      ensures Onward(old(bus), bus) && bus.cursor == old(bus.cursor)
      ensures IsAt(done, Consuming(g, left))
      ensures done ==> EntryMoved(old(bus), bus, g, i)
    {
      var handled := Attempt(g, i, left);
      ghost var issued := steps;
      if handled {
        done := Finish(g, i, left);
      } else {
        done := HandleConsumerFailure(g, i, left);
      }
      StopsLater(old(steps), issued, steps, done);
    }

    // Handing the event to the group's handler.
    method Attempt(g: Group, i: nat, left: seq<nat>) returns (handled: bool)
      requires OnTrack() && IsAt(true, Consuming(g, [i] + left))
      modifies this
      ensures start == old(start) && Proceeds(old(bus), old(steps), true)
      ensures bus.log == old(bus.log) && bus.pending == old(bus.pending) && bus.cursor == old(bus.cursor)
      ensures IsAt(true, if handled then Settled(g, i, left) else HandlerFailed(g, i, left))
      ensures handled ==> bus.failures == old(bus.failures) && KeyOf(bus, g, i) in bus.handled
      ensures !handled ==> var k := KeyOf(old(bus), g, i);
        bus.failures == old(bus.failures)[k := Count(old(bus.failures), k) + 1]
    {
      handled := *;
      assert ([i] + left)[1..] == left;
      Perform(Handle(id, handled));
    }

    // The common end of a handled and of a dead-lettered entry: the failure counter is cleared
    // whether or not that works, the event is marked, the entry is acknowledged.
    method Finish(g: Group, i: nat, left: seq<nat>) returns (done: bool)
      requires OnTrack() && IsAt(true, Settled(g, i, left))
      modifies this
      ensures start == old(start) && Proceeds(old(bus), old(steps), done)
      ensures bus.log == old(bus.log) && bus.failures == old(bus.failures) && bus.cursor == old(bus.cursor)
      ensures bus.pending == old(bus.pending) || bus.pending == old(bus.pending) - {(g, i)}
      ensures done ==> (g, i) !in bus.pending
      ensures IsAt(done, Consuming(g, left))
    {
      Clear(g, i, left);
      ghost var issued := steps;
      done := Mark(g, i, left);
      StopsLater(old(steps), issued, steps, done);
      if done {
        issued := steps;
        done := Acknowledge(g, i, left);
        StopsLater(old(steps), issued, steps, done);
      }
    }

    method Clear(g: Group, i: nat, left: seq<nat>)
      requires OnTrack() && IsAt(true, Settled(g, i, left))
      modifies this
      ensures start == old(start) && Proceeds(old(bus), old(steps), true)
      ensures bus.log == old(bus.log) && bus.failures == old(bus.failures)
      ensures bus.pending == old(bus.pending) && bus.cursor == old(bus.cursor)
      ensures IsAt(true, Cleared(g, i, left))
    {
      var cleared: bool := *;
      Perform(ClearFailure(id, cleared));
    }

    method Mark(g: Group, i: nat, left: seq<nat>) returns (marked: bool)
      requires OnTrack() && IsAt(true, Cleared(g, i, left))
      modifies this
      ensures start == old(start) && Proceeds(old(bus), old(steps), marked)
      ensures bus.log == old(bus.log) && bus.failures == old(bus.failures)
      ensures bus.pending == old(bus.pending) && bus.cursor == old(bus.cursor)
      ensures IsAt(marked, Acking(g, i, left))
    {
      marked := *;
      Perform(MarkProcessed(id, marked));
    }

    // The entry may be acknowledged although the caller sees an error.
    method Acknowledge(g: Group, i: nat, left: seq<nat>) returns (done: bool)
      requires OnTrack() && IsAt(true, Acking(g, i, left))
      modifies this
      ensures start == old(start) && Proceeds(old(bus), old(steps), done)
      ensures bus.log == old(bus.log) && bus.failures == old(bus.failures) && bus.cursor == old(bus.cursor)
      ensures bus.pending == old(bus.pending) || bus.pending == old(bus.pending) - {(g, i)}
      ensures done ==> (g, i) !in bus.pending
      ensures IsAt(done, Consuming(g, left))
    {
      var applied: bool := *;
      done := *;
      if done {
        applied := true;
      }
      Perform(Ack(id, applied, done));
    }

    // handle_consumer_failure: counts the failure, and at max_retries copies the event to the
    // dead-letter stream and acknowledges the entry; before that the entry stays pending.
    method HandleConsumerFailure(g: Group, i: nat, left: seq<nat>) returns (done: bool)
      requires OnTrack() && IsAt(true, HandlerFailed(g, i, left)) && i < |bus.log|
      modifies this
      ensures start == old(start) && Proceeds(old(bus), old(steps), done)
      ensures old(bus.log) <= bus.log && bus.failures == old(bus.failures) && bus.pending <= old(bus.pending)
      ensures bus.cursor == old(bus.cursor)
      ensures IsAt(done, Consuming(g, left))
      ensures done && (g, i) in old(bus.pending) && (g, i) !in bus.pending ==>
        HasEntry(bus.log, DlqOf(StreamOf(g)), old(bus.log)[i].event)
      ensures done && (g, i) in bus.pending ==>
        bus.log == old(bus.log) && Count(bus.counter, KeyOf(bus, g, i)) < bus.maxRetries
      ensures done && bus.log != old(bus.log) ==>
        (g, i) !in bus.pending && HasEntry(bus.log, DlqOf(StreamOf(g)), old(bus.log)[i].event)
    {
      done := CountFailure(g, i, left);
      if done && bus.workers[id].Exhausted? {
        ghost var issued := steps;
        done := DeadLetter(g, i, left);
        StopsLater(old(steps), issued, steps, done);
      }
    }

    // The counter may be raised although the caller sees an error.
    method CountFailure(g: Group, i: nat, left: seq<nat>) returns (counted: bool)
      requires OnTrack() && IsAt(true, HandlerFailed(g, i, left))
      modifies this
      ensures start == old(start) && Proceeds(old(bus), old(steps), counted)
      ensures bus.maxRetries == old(bus.maxRetries)
      ensures bus.log == old(bus.log) && bus.failures == old(bus.failures)
      ensures bus.pending == old(bus.pending) && bus.cursor == old(bus.cursor)
      ensures IsAt(counted, AfterFailure(bus, g, i, left))
    {
      var times: nat :| true;
      counted := *;
      if counted {
        times := times + 1;
      }
      Perform(Increment(id, times, counted));
    }

    method DeadLetter(g: Group, i: nat, left: seq<nat>) returns (done: bool)
      requires OnTrack() && IsAt(true, Exhausted(g, i, left)) && i < |bus.log|
      modifies this
      ensures start == old(start) && Proceeds(old(bus), old(steps), done)
      ensures old(bus.log) <= bus.log && bus.failures == old(bus.failures) && bus.pending <= old(bus.pending)
      ensures bus.cursor == old(bus.cursor)
      ensures IsAt(done, Consuming(g, left))
      ensures done ==> (g, i) !in bus.pending
      ensures done ==> HasEntry(bus.log, DlqOf(StreamOf(g)), old(bus.log)[i].event)
    {
      done := CopyToDlq(g, i, left);
      if done {
        ghost var issued := steps;
        done := Finish(g, i, left);
        StopsLater(old(steps), issued, steps, done);
      }
    }

    method CopyToDlq(g: Group, i: nat, left: seq<nat>) returns (done: bool)
      requires OnTrack() && IsAt(true, Exhausted(g, i, left)) && i < |bus.log|
      modifies this
      ensures start == old(start) && Proceeds(old(bus), old(steps), done)
      ensures old(bus.log) <= bus.log && bus.failures == old(bus.failures)
      ensures bus.pending == old(bus.pending) && bus.cursor == old(bus.cursor)
      ensures IsAt(done, Settled(g, i, left))
      ensures done ==> HasEntry(bus.log, DlqOf(StreamOf(g)), old(bus.log)[i].event)
    {
      var copies: nat :| true;
      done := *;
      if done {
        copies := copies + 1;
      }
      DlqXaddCopies(bus, id, copies, done);
      Perform(DlqXadd(id, copies, done));
    }
  }
}
