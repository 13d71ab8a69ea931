/** The outbox, the streams and the consumer groups: src/telemetry/redis_bus.rs over the
    outbox statements of src/storage/postgres.rs and the stream commands of
    src/storage/cache.rs. The state is shared; each command is one atomic step of some worker,
    any command may fail, and a worker may crash between any two commands. */
module RedisBus {
  type EventId = nat

  datatype Group = Dashboard | Memory

  function StreamOf(g: Group): string {
    match g
    case Dashboard => "events"
    case Memory => "memory"
  }

  function DlqOf(stream: string): string {
    stream + "-dlq"
  }

  // publish_attempts and published_at of an outbox row, and the stream it is meant for.
  datatype OutboxRow = OutboxRow(stream: string, published: bool, attempts: nat)

  datatype Entry = Entry(stream: string, event: EventId)

  // Where a worker stands in its tick: what it still has to do before the next command.
  datatype Phase =
    | Publishing(queue: seq<EventId>)
    | Published(event: EventId, rest: seq<EventId>)
    | PublishFailed(event: EventId, rest: seq<EventId>)
    | Consuming(group: Group, entries: seq<nat>)
    | HandlerFailed(group: Group, entry: nat, left: seq<nat>)
    | Exhausted(group: Group, entry: nat, left: seq<nat>)
    | Settled(group: Group, entry: nat, left: seq<nat>)
    | Cleared(group: Group, entry: nat, left: seq<nat>)
    | Acking(group: Group, entry: nat, left: seq<nat>)

  type Key = (Group, EventId)

  datatype Bus = Bus(
    maxRetries: nat,
    outbox: map<EventId, OutboxRow>,
    log: seq<Entry>,               // every entry ever added; an entry's Redis id is its position
    trimmed: set<nat>,
    cursor: map<Group, nat>,       // entries before it have been delivered to the group
    pending: set<(Group, nat)>,    // delivered and not yet acknowledged
    counter: map<Key, nat>,        // stream_fail keys
    workers: map<nat, Phase>,      // workers inside a tick
    handled: set<Key>,             // history: events a group handled successfully
    failures: map<Key, nat>,       // history: handling failures
    increments: map<Key, nat>      // history: calls of increment_stream_failure
  )

  function Count(m: map<Key, nat>, k: Key): nat {
    if k in m then m[k] else 0
  }

  function Cursor(b: Bus, g: Group): nat {
    if g in b.cursor then b.cursor[g] else 0
  }

  function KeyOf(b: Bus, g: Group, entry: nat): Key {
    (g, if entry < |b.log| then b.log[entry].event else 0)
  }

  // The positions of a stream's entries in log[from..to].
  function Positions(log: seq<Entry>, stream: string, from: nat, to: nat): (r: seq<nat>)
    requires from <= to <= |log|
    ensures forall i :: i in r <==> from <= i < to && log[i].stream == stream
  {
    if from == to then []
    else Positions(log, stream, from, to - 1) + (if log[to - 1].stream == stream then [to - 1] else [])
  }

  function Copies(e: Entry, n: nat): (r: seq<Entry>)
    ensures |r| == n && forall i :: 0 <= i < n ==> r[i] == e
  {
    seq(n, i => e)
  }

  // ---------- steps ----------

  // `applied` says whether a command took effect, `ok` whether its caller saw it succeed;
  // XADD and INCR are retried after a dropped connection and may take effect more than once.
  datatype Step =
    | Enqueue(event: EventId, stream: string)
    | FetchPending(worker: nat, events: seq<EventId>)
    | Xadd(worker: nat, copies: nat, ok: bool)
    | MarkPublished(worker: nat, applied: bool, ok: bool)
    | RecordFailure(worker: nat, applied: bool, ok: bool)
    | Claim(worker: nat, group: Group, entries: seq<nat>)
    | ReadGroup(worker: nat, group: Group, to: nat)
    | Handle(worker: nat, ok: bool)
    | Increment(worker: nat, times: nat, ok: bool)
    | DlqXadd(worker: nat, copies: nat, ok: bool)
    | ClearFailure(worker: nat, applied: bool)
    | MarkProcessed(worker: nat, ok: bool)
    | Ack(worker: nat, applied: bool, ok: bool)
    | EndTick(worker: nat)
    | Crash(worker: nat)
    | Trim(entry: nat)

  predicate Acknowledged(b: Bus, g: Group, i: nat) {
    i < |b.log| && b.log[i].stream == StreamOf(g) && i < Cursor(b, g) && (g, i) !in b.pending
  }

  predicate At(b: Bus, w: nat, p: Phase -> bool) {
    w in b.workers && p(b.workers[w])
  }

  // Producers write to the working streams, never straight to a dead-letter stream; trimming
  // removes acknowledged entries only.
  predicate Enabled(b: Bus, s: Step) {
    match s
    case Enqueue(_, stream) => stream != DlqOf(StreamOf(Dashboard)) && stream != DlqOf(StreamOf(Memory))
    case FetchPending(w, events) =>
      w !in b.workers && forall e :: e in events ==> e in b.outbox && !b.outbox[e].published
    case Xadd(w, copies, ok) => At(b, w, (p: Phase) => p.Publishing? && p.queue != []) && (ok ==> copies > 0)
    case MarkPublished(w, applied, ok) => At(b, w, (p: Phase) => p.Published?) && (ok ==> applied)
    case RecordFailure(w, applied, ok) => At(b, w, (p: Phase) => p.PublishFailed?) && (ok ==> applied)
    case Claim(w, g, entries) => w !in b.workers && forall i :: i in entries ==> (g, i) in b.pending
    case ReadGroup(w, g, to) => w !in b.workers && Cursor(b, g) <= to <= |b.log|
    case Handle(w, _) => At(b, w, (p: Phase) => p.Consuming? && p.entries != [])
    case Increment(w, times, ok) => At(b, w, (p: Phase) => p.HandlerFailed?) && (ok ==> times > 0)
    case DlqXadd(w, copies, ok) => At(b, w, (p: Phase) => p.Exhausted?) && (ok ==> copies > 0)
    case ClearFailure(w, _) => At(b, w, (p: Phase) => p.Settled?)
    case MarkProcessed(w, _) => At(b, w, (p: Phase) => p.Cleared?)
    case Ack(w, applied, ok) => At(b, w, (p: Phase) => p.Acking?) && (ok ==> applied)
    case EndTick(w) =>
      At(b, w, (p: Phase) => (p.Publishing? && p.queue == []) || (p.Consuming? && p.entries == []))
    case Crash(w) => w in b.workers
    case Trim(i) => Acknowledged(b, Dashboard, i) || Acknowledged(b, Memory, i)
  }

  // The worker goes on with its tick, or drops out of it.
  function Continue(b: Bus, w: nat, goOn: bool, p: Phase): Bus {
    b.(workers := if goOn then b.workers[w := p] else b.workers - {w})
  }

  function Next(b: Bus, s: Step): Bus
    requires Enabled(b, s)
  {
    match s
    case Enqueue(e, stream) =>
      if e in b.outbox then b else b.(outbox := b.outbox[e := OutboxRow(stream, false, 0)])
    case FetchPending(w, events) => Continue(b, w, true, Publishing(events))
    case Xadd(w, copies, ok) =>
      var e, rest := b.workers[w].queue[0], b.workers[w].queue[1..];
      var stream := if e in b.outbox then b.outbox[e].stream else "";
      Continue(b.(log := b.log + Copies(Entry(stream, e), copies)), w, true,
               if ok then Published(e, rest) else PublishFailed(e, rest))
    case MarkPublished(w, applied, ok) =>
      var Published(e, rest) := b.workers[w];
      Continue(if applied && e in b.outbox
               then b.(outbox := b.outbox[e := b.outbox[e].(published := true, attempts := b.outbox[e].attempts + 1)])
               else b, w, ok, Publishing(rest))
    case RecordFailure(w, applied, ok) =>
      var PublishFailed(e, rest) := b.workers[w];
      Continue(if applied && e in b.outbox
               then b.(outbox := b.outbox[e := b.outbox[e].(attempts := b.outbox[e].attempts + 1)])
               else b, w, ok, Publishing(rest))
    case Claim(w, g, entries) => Continue(b, w, true, Consuming(g, entries))
    case ReadGroup(w, g, to) =>
      var entries := Positions(b.log, StreamOf(g), Cursor(b, g), to);
      Continue(b.(cursor := b.cursor[g := to], pending := b.pending + set i | i in entries :: (g, i)),
               w, true, Consuming(g, entries))
    case Handle(w, ok) =>
      var Consuming(g, entries) := b.workers[w];
      var k := KeyOf(b, g, entries[0]);
      if ok then Continue(b.(handled := b.handled + {k}), w, true, Settled(g, entries[0], entries[1..]))
      else Continue(b.(failures := b.failures[k := Count(b.failures, k) + 1]), w, true,
                    HandlerFailed(g, entries[0], entries[1..]))
    case Increment(w, times, ok) =>
      var HandlerFailed(g, i, rest) := b.workers[w];
      var k := KeyOf(b, g, i);
      var total := Count(b.counter, k) + times;
      Continue(b.(counter := b.counter[k := total], increments := b.increments[k := Count(b.increments, k) + 1]),
               w, ok, if total >= b.maxRetries then Exhausted(g, i, rest) else Consuming(g, rest))
    case DlqXadd(w, copies, ok) =>
      var Exhausted(g, i, rest) := b.workers[w];
      Continue(b.(log := b.log + Copies(Entry(DlqOf(StreamOf(g)), KeyOf(b, g, i).1), copies)),
               w, ok, Settled(g, i, rest))
    case ClearFailure(w, applied) =>
      var Settled(g, i, rest) := b.workers[w];
      Continue(if applied then b.(counter := b.counter - {KeyOf(b, g, i)}) else b, w, true, Cleared(g, i, rest))
    case MarkProcessed(w, ok) =>
      var Cleared(g, i, rest) := b.workers[w];
      Continue(b, w, ok, Acking(g, i, rest))
    case Ack(w, applied, ok) =>
      var Acking(g, i, rest) := b.workers[w];
      Continue(if applied then b.(pending := b.pending - {(g, i)}) else b, w, ok, Consuming(g, rest))
    case EndTick(w) => b.(workers := b.workers - {w})
    case Crash(w) => b.(workers := b.workers - {w})
    case Trim(i) => b.(trimmed := b.trimmed + {i})
  }

  // The bus after any schedule of steps; a step that is not enabled does nothing.
  function After(b: Bus, steps: seq<Step>): Bus {
    if steps == [] then b
    else
      var before := After(b, steps[..|steps| - 1]);
      if Enabled(before, steps[|steps| - 1]) then Next(before, steps[|steps| - 1]) else before
  }

  function EmptyBus(maxRetries: nat): Bus {
    Bus(maxRetries, map[], [], {}, map[], {}, map[], map[], {}, map[], map[])
  }

  // ---------- nothing is lost ----------

  ghost predicate HasEntry(log: seq<Entry>, stream: string, e: EventId) {
    exists i :: 0 <= i < |log| && log[i] == Entry(stream, e)
  }

  predicate Delivered(b: Bus, g: Group, i: nat) {
    i < |b.log| && b.log[i].stream == StreamOf(g) && i < Cursor(b, g)
  }

  // Handled successfully by the group, or copied to the stream's dead-letter stream.
  ghost predicate IsSettled(b: Bus, g: Group, e: EventId) {
    (g, e) in b.handled || HasEntry(b.log, DlqOf(StreamOf(g)), e)
  }

  ghost predicate AllDelivered(b: Bus, g: Group, entries: seq<nat>) {
    forall i :: i in entries ==> Delivered(b, g, i)
  }

  predicate AllEnqueued(b: Bus, events: seq<EventId>) {
    forall e :: e in events ==> e in b.outbox
  }

  ghost predicate PhaseOk(b: Bus, p: Phase) {
    match p
    case Publishing(queue) => AllEnqueued(b, queue)
    case Published(e, rest) => AllEnqueued(b, rest) && e in b.outbox && HasEntry(b.log, b.outbox[e].stream, e)
    case PublishFailed(e, rest) => AllEnqueued(b, rest) && e in b.outbox
    case Consuming(g, entries) => AllDelivered(b, g, entries)
    case HandlerFailed(g, i, rest) => Delivered(b, g, i) && AllDelivered(b, g, rest)
    case Exhausted(g, i, rest) => Delivered(b, g, i) && AllDelivered(b, g, rest)
    case Settled(g, i, rest) => Delivered(b, g, i) && IsSettled(b, g, b.log[i].event) && AllDelivered(b, g, rest)
    case Cleared(g, i, rest) => Delivered(b, g, i) && IsSettled(b, g, b.log[i].event) && AllDelivered(b, g, rest)
    case Acking(g, i, rest) => Delivered(b, g, i) && IsSettled(b, g, b.log[i].event) && AllDelivered(b, g, rest)
  }

  ghost predicate OutboxOk(b: Bus) {
    forall e :: e in b.outbox && b.outbox[e].published ==> HasEntry(b.log, b.outbox[e].stream, e)
  }

  ghost predicate EntriesOk(b: Bus) {
    && (forall g :: Cursor(b, g) <= |b.log|)
    && (forall g, i: nat :: (g, i) in b.pending ==> Delivered(b, g, i))
    && (forall g, i: nat :: Delivered(b, g, i) && (g, i) !in b.pending ==> IsSettled(b, g, b.log[i].event))
  }

  ghost predicate TrimmedOk(b: Bus) {
    forall i :: i in b.trimmed ==> Acknowledged(b, Dashboard, i) || Acknowledged(b, Memory, i)
  }

  ghost predicate WorkersOk(b: Bus) {
    forall w :: w in b.workers ==> PhaseOk(b, b.workers[w])
  }

  ghost predicate BusInvariant(b: Bus) {
    OutboxOk(b) && EntriesOk(b) && TrimmedOk(b) && WorkersOk(b)
  }

  predicate RowGrows(a: OutboxRow, b: OutboxRow) {
    a.stream == b.stream && (a.published ==> b.published)
  }

  // What no step takes back.
  ghost predicate Grows(b: Bus, c: Bus) {
    && b.log <= c.log
    && b.handled <= c.handled
    && (forall g :: Cursor(b, g) <= Cursor(c, g))
    && (forall e :: e in b.outbox ==> e in c.outbox && RowGrows(b.outbox[e], c.outbox[e]))
  }

  lemma EntryStays(log: seq<Entry>, longer: seq<Entry>, stream: string, e: EventId)
    requires log <= longer && HasEntry(log, stream, e)
    ensures HasEntry(longer, stream, e)
  {
    var i :| 0 <= i < |log| && log[i] == Entry(stream, e);
    assert longer[i] == log[i];
  }

  lemma SettledStays(b: Bus, c: Bus, g: Group, e: EventId)
    requires Grows(b, c) && IsSettled(b, g, e)
    ensures IsSettled(c, g, e)
  {
    if (g, e) !in b.handled {
      EntryStays(b.log, c.log, DlqOf(StreamOf(g)), e);
    }
  }

  lemma DeliveredStays(b: Bus, c: Bus, g: Group, i: nat)
    requires Grows(b, c) && Delivered(b, g, i)
    ensures Delivered(c, g, i) && c.log[i] == b.log[i]
  {
  }

  lemma PhaseStaysOk(b: Bus, c: Bus, p: Phase)
    requires Grows(b, c) && PhaseOk(b, p)
    ensures PhaseOk(c, p)
  {
    forall g, i: nat | Delivered(b, g, i)
      ensures Delivered(c, g, i) && c.log[i] == b.log[i]
      ensures IsSettled(b, g, b.log[i].event) ==> IsSettled(c, g, b.log[i].event)
    {
      DeliveredStays(b, c, g, i);
      if IsSettled(b, g, b.log[i].event) {
        SettledStays(b, c, g, b.log[i].event);
      }
    }
    if p.Published? {
      EntryStays(b.log, c.log, b.outbox[p.event].stream, p.event);
    }
  }

  predicate IsOutboxStep(s: Step) {
    s.Enqueue? || s.FetchPending? || s.Xadd? || s.MarkPublished? || s.RecordFailure?
  }

  predicate IsHandlingStep(s: Step) {
    s.Handle? || s.Increment?
  }

  predicate IsSettlingStep(s: Step) {
    s.DlqXadd? || s.ClearFailure? || s.MarkProcessed? || s.Ack?
  }

  lemma EnqueueGrows(b: Bus, s: Step)
    requires Enabled(b, s) && (s.Enqueue? || s.Xadd?)
    ensures Grows(b, Next(b, s))
  {
  }

  lemma OutboxStepGrows(b: Bus, s: Step)
    requires Enabled(b, s) && IsOutboxStep(s)
    ensures Grows(b, Next(b, s))
  {
    if s.Enqueue? || s.Xadd? {
      EnqueueGrows(b, s);
    }
  }

  lemma HandlingStepGrows(b: Bus, s: Step)
    requires Enabled(b, s) && IsHandlingStep(s)
    ensures Grows(b, Next(b, s))
  {
  }

  lemma DlqXaddGrows(b: Bus, s: Step)
    requires Enabled(b, s) && s.DlqXadd?
    ensures Grows(b, Next(b, s))
  {
  }

  lemma SettlingStepGrows(b: Bus, s: Step)
    requires Enabled(b, s) && IsSettlingStep(s)
    ensures Grows(b, Next(b, s))
  {
    if s.DlqXadd? {
      DlqXaddGrows(b, s);
    }
  }

  lemma ConsumerStepGrows(b: Bus, s: Step)
    requires Enabled(b, s) && !IsOutboxStep(s)
    ensures Grows(b, Next(b, s))
  {
    if IsHandlingStep(s) {
      HandlingStepGrows(b, s);
    } else if IsSettlingStep(s) {
      SettlingStepGrows(b, s);
    }
  }

  lemma StepGrows(b: Bus, s: Step)
    requires Enabled(b, s)
    ensures Grows(b, Next(b, s))
  {
    if IsOutboxStep(s) {
      OutboxStepGrows(b, s);
    } else {
      ConsumerStepGrows(b, s);
    }
  }

  // ---------- whose phase a step changes ----------

  predicate ByOther(s: Step, w: nat) {
    match s
    case Enqueue(_, _) => true
    case Trim(_) => true
    case _ => s.worker != w
  }

  // Worker w is where it was, in or out of a tick.
  predicate SamePlace(b: Bus, c: Bus, w: nat) {
    (w in c.workers <==> w in b.workers) && (w in b.workers ==> c.workers[w] == b.workers[w])
  }

  lemma OthersStayOutbox(b: Bus, s: Step, w: nat)
    requires Enabled(b, s) && ByOther(s, w) && IsOutboxStep(s)
    ensures SamePlace(b, Next(b, s), w)
  {
  }

  lemma OthersStayHandling(b: Bus, s: Step, w: nat)
    requires Enabled(b, s) && ByOther(s, w) && IsHandlingStep(s)
    ensures SamePlace(b, Next(b, s), w)
  {
  }

  lemma OthersStaySettling(b: Bus, s: Step, w: nat)
    requires Enabled(b, s) && ByOther(s, w) && IsSettlingStep(s)
    ensures SamePlace(b, Next(b, s), w)
  {
  }

  lemma OtherWorkersStay(b: Bus, s: Step, w: nat)
    requires Enabled(b, s) && ByOther(s, w)
    ensures SamePlace(b, Next(b, s), w)
  {
    if IsOutboxStep(s) {
      OthersStayOutbox(b, s, w);
    } else if IsHandlingStep(s) {
      OthersStayHandling(b, s, w);
    } else if IsSettlingStep(s) {
      OthersStaySettling(b, s, w);
    }
  }

  lemma WorkerLeaves(b: Bus, s: Step)
    requires Enabled(b, s) && (s.EndTick? || s.Crash?)
    ensures s.worker !in Next(b, s).workers
  {
  }

  // A worker that is somewhere new has taken the step itself.
  lemma OnlyOwnPhaseChanges(b: Bus, s: Step, w: nat)
    requires Enabled(b, s)
    requires w in Next(b, s).workers && (w in b.workers ==> Next(b, s).workers[w] != b.workers[w])
    ensures !s.Enqueue? && !s.Trim? && !s.Crash? && !s.EndTick? && s.worker == w
  {
    if ByOther(s, w) {
      OtherWorkersStay(b, s, w);
    } else if s.EndTick? || s.Crash? {
      WorkerLeaves(b, s);
    }
  }

  lemma XaddPhaseOk(b: Bus, s: Step)
    requires BusInvariant(b) && Enabled(b, s) && s.Xadd?
    ensures s.worker in Next(b, s).workers && PhaseOk(Next(b, s), Next(b, s).workers[s.worker])
  {
    var c := Next(b, s);
    OutboxStepGrows(b, s);
    assert PhaseOk(b, b.workers[s.worker]);
    var e := b.workers[s.worker].queue[0];
    assert s.ok ==> c.log[|b.log|] == Entry(b.outbox[e].stream, e);
  }

  lemma FetchPhaseOk(b: Bus, s: Step)
    requires BusInvariant(b) && Enabled(b, s) && s.FetchPending?
    ensures s.worker in Next(b, s).workers && PhaseOk(Next(b, s), Next(b, s).workers[s.worker])
  {
  }

  lemma SavePhaseOk(b: Bus, s: Step)
    requires BusInvariant(b) && Enabled(b, s) && (s.MarkPublished? || s.RecordFailure?)
    ensures s.worker in Next(b, s).workers ==> PhaseOk(Next(b, s), Next(b, s).workers[s.worker])
  {
    OutboxStepGrows(b, s);
    PhaseStaysOk(b, Next(b, s), b.workers[s.worker]);
  }

  // The phase a step leaves its own worker in is justified.
  lemma OwnOutboxPhaseOk(b: Bus, s: Step, w: nat)
    requires BusInvariant(b) && Enabled(b, s) && IsOutboxStep(s)
    requires w in Next(b, s).workers && (w in b.workers ==> Next(b, s).workers[w] != b.workers[w])
    ensures PhaseOk(Next(b, s), Next(b, s).workers[w])
  {
    OnlyOwnPhaseChanges(b, s, w);
    if s.FetchPending? {
      FetchPhaseOk(b, s);
    } else if s.Xadd? {
      XaddPhaseOk(b, s);
    } else {
      SavePhaseOk(b, s);
    }
  }

  lemma OwnHandlerPhaseOk(b: Bus, s: Step)
    requires BusInvariant(b) && Enabled(b, s) && (s.Handle? || s.Increment? || s.DlqXadd?)
    ensures s.worker in Next(b, s).workers ==> PhaseOk(Next(b, s), Next(b, s).workers[s.worker])
  {
    var c := Next(b, s);
    ConsumerStepGrows(b, s);
    PhaseStaysOk(b, c, b.workers[s.worker]);
    if s.DlqXadd? && s.ok {
      var Exhausted(g, i, rest) := b.workers[s.worker];
      assert c.log[|b.log|] == Entry(DlqOf(StreamOf(g)), b.log[i].event);
    }
  }

  lemma OwnFinishPhaseOk(b: Bus, s: Step)
    requires BusInvariant(b) && Enabled(b, s) && (s.ClearFailure? || s.MarkProcessed? || s.Ack?)
    ensures s.worker in Next(b, s).workers ==> PhaseOk(Next(b, s), Next(b, s).workers[s.worker])
  {
    ConsumerStepGrows(b, s);
    PhaseStaysOk(b, Next(b, s), b.workers[s.worker]);
  }

  lemma OwnFirstPhaseOk(b: Bus, s: Step)
    requires BusInvariant(b) && Enabled(b, s) && (s.Claim? || s.ReadGroup?)
    ensures s.worker in Next(b, s).workers && PhaseOk(Next(b, s), Next(b, s).workers[s.worker])
  {
  }

  lemma OwnConsumerPhaseOk(b: Bus, s: Step, w: nat)
    requires BusInvariant(b) && Enabled(b, s) && !IsOutboxStep(s)
    requires w in Next(b, s).workers && (w in b.workers ==> Next(b, s).workers[w] != b.workers[w])
    ensures PhaseOk(Next(b, s), Next(b, s).workers[w])
  {
    OnlyOwnPhaseChanges(b, s, w);
    if s.Handle? || s.Increment? || s.DlqXadd? {
      OwnHandlerPhaseOk(b, s);
    } else if s.Claim? || s.ReadGroup? {
      OwnFirstPhaseOk(b, s);
    } else {
      OwnFinishPhaseOk(b, s);
    }
  }

  lemma OwnPhaseOk(b: Bus, s: Step, w: nat)
    requires BusInvariant(b) && Enabled(b, s)
    requires w in Next(b, s).workers && (w in b.workers ==> Next(b, s).workers[w] != b.workers[w])
    ensures PhaseOk(Next(b, s), Next(b, s).workers[w])
  {
    if IsOutboxStep(s) {
      OwnOutboxPhaseOk(b, s, w);
    } else {
      OwnConsumerPhaseOk(b, s, w);
    }
  }

  lemma StepKeepsWorkers(b: Bus, s: Step)
    requires BusInvariant(b) && Enabled(b, s)
    ensures WorkersOk(Next(b, s))
  {
    var c := Next(b, s);
    StepGrows(b, s);
    forall w | w in c.workers
      ensures PhaseOk(c, c.workers[w])
    {
      if w in b.workers && c.workers[w] == b.workers[w] {
        PhaseStaysOk(b, c, b.workers[w]);
      } else {
        OwnPhaseOk(b, s, w);
      }
    }
  }

  lemma MarkKeepsOutbox(b: Bus, s: Step, e: EventId)
    requires BusInvariant(b) && Enabled(b, s) && s.MarkPublished?
    requires e in Next(b, s).outbox && Next(b, s).outbox[e].published
    ensures HasEntry(b.log, Next(b, s).outbox[e].stream, e)
  {
    assert PhaseOk(b, b.workers[s.worker]);
  }

  lemma OnlyMarkPublishes(b: Bus, s: Step, e: EventId)
    requires Enabled(b, s) && !s.MarkPublished?
    requires e in Next(b, s).outbox && Next(b, s).outbox[e].published
    ensures e in b.outbox && b.outbox[e].published && b.outbox[e].stream == Next(b, s).outbox[e].stream
  {
    if !IsOutboxStep(s) {
      ConsumersKeepOutbox(b, s);
    }
  }

  lemma ConsumersKeepOutbox(b: Bus, s: Step)
    requires Enabled(b, s) && !IsOutboxStep(s)
    ensures Next(b, s).outbox == b.outbox
  {
  }

  lemma StepKeepsOutbox(b: Bus, s: Step)
    requires BusInvariant(b) && Enabled(b, s)
    ensures OutboxOk(Next(b, s))
  {
    var c := Next(b, s);
    StepGrows(b, s);
    forall e | e in c.outbox && c.outbox[e].published
      ensures HasEntry(c.log, c.outbox[e].stream, e)
    {
      if s.MarkPublished? {
        MarkKeepsOutbox(b, s, e);
      } else {
        OnlyMarkPublishes(b, s, e);
      }
      EntryStays(b.log, c.log, c.outbox[e].stream, e);
    }
  }

  lemma OutboxStepDelivers(b: Bus, s: Step)
    requires Enabled(b, s) && IsOutboxStep(s)
    ensures var c := Next(b, s);
      && c.cursor == b.cursor && c.pending == b.pending && c.trimmed == b.trimmed
      && (!s.Xadd? ==> c.log == b.log)
  {
  }

  lemma HandleDelivers(b: Bus, s: Step)
    requires Enabled(b, s) && s.Handle?
    ensures var c := Next(b, s);
      c.cursor == b.cursor && c.pending == b.pending && c.trimmed == b.trimmed && c.log == b.log
  {
  }

  lemma HandlingStepDelivers(b: Bus, s: Step)
    requires Enabled(b, s) && IsHandlingStep(s)
    ensures var c := Next(b, s);
      c.cursor == b.cursor && c.pending == b.pending && c.trimmed == b.trimmed && c.log == b.log
  {
    if s.Handle? {
      HandleDelivers(b, s);
    }
  }

  lemma SettlingStepDelivers(b: Bus, s: Step)
    requires Enabled(b, s) && IsSettlingStep(s)
    ensures var c := Next(b, s);
      && c.cursor == b.cursor && c.pending <= b.pending && c.trimmed == b.trimmed
      && (!s.Ack? ==> c.pending == b.pending)
      && (!s.DlqXadd? ==> c.log == b.log)
  {
  }

  // What a step does to the delivery state.
  lemma DeliveryFrame(b: Bus, s: Step)
    requires Enabled(b, s)
    ensures var c := Next(b, s);
      && (!s.ReadGroup? ==> c.cursor == b.cursor && c.pending <= b.pending)
      && (!s.ReadGroup? && !s.Ack? ==> c.pending == b.pending)
      && (!s.Xadd? && !s.DlqXadd? ==> c.log == b.log)
      && (!s.Trim? ==> c.trimmed == b.trimmed)
  {
    if IsOutboxStep(s) {
      OutboxStepDelivers(b, s);
    } else if IsHandlingStep(s) {
      HandlingStepDelivers(b, s);
    } else if IsSettlingStep(s) {
      SettlingStepDelivers(b, s);
    }
  }

  lemma ReadKeepsEntries(b: Bus, s: Step)
    requires EntriesOk(b) && Enabled(b, s) && s.ReadGroup?
    ensures EntriesOk(Next(b, s))
  {
    var c := Next(b, s);
    forall g, i: nat | Delivered(c, g, i) && (g, i) !in c.pending
      ensures IsSettled(c, g, c.log[i].event)
    {
      assert Delivered(b, g, i);
    }
    forall g
      ensures Cursor(c, g) <= |c.log|
    {
      assert Cursor(b, g) <= |b.log|;
    }
  }

  lemma AckKeepsEntries(b: Bus, s: Step)
    requires EntriesOk(b) && Enabled(b, s) && s.Ack? && PhaseOk(b, b.workers[s.worker])
    ensures EntriesOk(Next(b, s))
  {
    var c := Next(b, s);
    var Acking(group, entry, rest) := b.workers[s.worker];
    forall g, i: nat | Delivered(c, g, i) && (g, i) !in c.pending
      ensures IsSettled(c, g, c.log[i].event)
    {
      assert Delivered(b, g, i);
      assert (g, i) in b.pending ==> g == group && i == entry;
      assert IsSettled(b, g, b.log[i].event);
    }
    forall g
      ensures Cursor(c, g) <= |c.log|
    {
      assert Cursor(b, g) <= |b.log|;
    }
  }

  // Growing the log leaves the entries that were there as they are.
  lemma OtherStepsKeepEntries(b: Bus, c: Bus)
    requires EntriesOk(b) && Grows(b, c) && c.cursor == b.cursor && c.pending == b.pending
    ensures EntriesOk(c)
  {
    forall g, i: nat | Delivered(c, g, i)
      ensures Delivered(b, g, i) && c.log[i] == b.log[i]
    {
      assert i < Cursor(b, g) <= |b.log|;
    }
    forall g, i: nat | Delivered(c, g, i) && (g, i) !in c.pending
      ensures IsSettled(c, g, c.log[i].event)
    {
      SettledStays(b, c, g, b.log[i].event);
    }
    forall g
      ensures Cursor(c, g) <= |c.log|
    {
      assert Cursor(b, g) <= |b.log|;
    }
  }

  lemma StepKeepsEntries(b: Bus, s: Step)
    requires BusInvariant(b) && Enabled(b, s)
    ensures EntriesOk(Next(b, s))
  {
    if s.ReadGroup? {
      ReadKeepsEntries(b, s);
    } else if s.Ack? {
      AckKeepsEntries(b, s);
    } else {
      DeliveryFrame(b, s);
      StepGrows(b, s);
      OtherStepsKeepEntries(b, Next(b, s));
    }
  }

  lemma AcknowledgedStays(b: Bus, c: Bus, g: Group, i: nat)
    requires EntriesOk(c) && Grows(b, c) && Acknowledged(b, g, i) && (g, i) !in c.pending
    ensures Acknowledged(c, g, i)
  {
    DeliveredStays(b, c, g, i);
  }

  lemma AcknowledgedStaysOut(b: Bus, s: Step, g: Group, i: nat)
    requires Enabled(b, s) && Acknowledged(b, g, i)
    ensures (g, i) !in Next(b, s).pending
  {
    DeliveryFrame(b, s);
  }

  lemma StepKeepsTrimmed(b: Bus, s: Step)
    requires BusInvariant(b) && Enabled(b, s)
    ensures TrimmedOk(Next(b, s))
  {
    var c := Next(b, s);
    StepGrows(b, s);
    StepKeepsEntries(b, s);
    DeliveryFrame(b, s);
    forall g, i: nat | Acknowledged(b, g, i)
      ensures Acknowledged(c, g, i)
    {
      AcknowledgedStaysOut(b, s, g, i);
      AcknowledgedStays(b, c, g, i);
    }
  }

  lemma StepKeepsInvariant(b: Bus, s: Step)
    requires BusInvariant(b) && Enabled(b, s)
    ensures BusInvariant(Next(b, s))
  {
    StepKeepsOutbox(b, s);
    StepKeepsEntries(b, s);
    StepKeepsTrimmed(b, s);
    StepKeepsWorkers(b, s);
  }

  lemma {:induction false} RunKeepsInvariant(b: Bus, steps: seq<Step>)
    requires BusInvariant(b)
    ensures BusInvariant(After(b, steps)) && Grows(b, After(b, steps))
  {
    if steps != [] {
      var before, s := After(b, steps[..|steps| - 1]), steps[|steps| - 1];
      RunKeepsInvariant(b, steps[..|steps| - 1]);
      if Enabled(before, s) {
        StepKeepsInvariant(before, s);
        StepGrows(before, s);
      }
    }
  }

  // No event is lost, over every interleaving of any number of workers with failing commands
  // and crashes: an enqueued event is still unpublished in the outbox or has an entry in its
  // stream, and an entry of a consumed stream is undelivered, pending, handled by its group, or
  // copied to the dead-letter stream.
  lemma NothingIsLost(maxRetries: nat, steps: seq<Step>, e: EventId, g: Group)
    ensures var b := After(EmptyBus(maxRetries), steps);
      e in b.outbox && b.outbox[e].stream == StreamOf(g) ==>
        || !b.outbox[e].published
        || exists i: nat :: i < |b.log| && b.log[i] == Entry(StreamOf(g), e) &&
             (i >= Cursor(b, g) || (g, i) in b.pending || IsSettled(b, g, e))
  {
    var b := After(EmptyBus(maxRetries), steps);
    RunKeepsInvariant(EmptyBus(maxRetries), steps);
    if e in b.outbox && b.outbox[e].stream == StreamOf(g) && b.outbox[e].published {
      var i :| 0 <= i < |b.log| && b.log[i] == Entry(StreamOf(g), e);
      assert Delivered(b, g, i) || i >= Cursor(b, g);
    }
  }

  // The same for every single entry: what has left the pending list was handled or copied.
  lemma AcknowledgedEntriesAreSettled(maxRetries: nat, steps: seq<Step>, g: Group, i: nat)
    ensures var b := After(EmptyBus(maxRetries), steps);
      Acknowledged(b, g, i) ==> IsSettled(b, g, b.log[i].event)
  {
    RunKeepsInvariant(EmptyBus(maxRetries), steps);
  }
}
