/** The bounded list of recent runtime events (src/storage/store.rs), which refines an unbounded
    move-to-front list. Updates run one after another and the stored list does not expire. */
module Projection {
  import opened Options

  // The id is present when the event carries a string there; the rest of the event is opaque.
  datatype Event = Event(id: Option<string>, body: string)

  // Does delivering `newer` drop `existing`? An event without an id counts as having the empty one.
  predicate Drops(newer: Event, existing: Event) {
    existing.id == Some(newer.id.GetOr(""))
  }

  function Kept(newer: Event, events: seq<Event>): seq<Event> {
    if events == [] then []
    else (if Drops(newer, events[0]) then [] else [events[0]]) + Kept(newer, events[1..])
  }

  function Prefix(events: seq<Event>, n: nat): seq<Event> {
    if |events| > n then events[..n] else events
  }

  class RuntimeEvents {
    var stored: Option<seq<Event>>

    constructor ()
      ensures stored == None
    {
      stored := None;
    }

    // update_runtime_events_projection
    method Update(event: Event, maxItems: nat)
      modifies this
      ensures stored == Some(Prefix([event] + Kept(event, old(stored).GetOr([])), maxItems))
      ensures |stored.value| <= maxItems
    {
      var events := stored.GetOr([]);
      events := Retain(event, events);
      events := [event] + events;
      if |events| > maxItems {
        events := events[..maxItems];
      }
      stored := Some(events);
    }

    // runtime_events_projection
    method Read(limit: nat) returns (r: Option<seq<Event>>)
      ensures stored.None? ==> r.None?
      ensures stored.Some? ==> r.Some? && r.value <= stored.value && |r.value| <= limit
      ensures stored.Some? && |stored.value| <= limit ==> r == stored
      ensures stored.Some? && |stored.value| > limit ==> |r.value| == limit
    {
      if stored.None? {
        return None;
      }
      var events := stored.value;
      if |events| > limit {
        events := events[..limit];
      }
      r := Some(events);
    }

    // Any number of deliveries to a fresh projection, as a reader sees it.
    method Deliver(history: seq<Event>, maxItems: nat)
      requires stored == None
      modifies this
      ensures history != [] ==> stored == Some(Prefix(Surviving(history, 0), maxItems))
      ensures history != [] ==> ShowsLatest(history, maxItems, stored.value)
    {
      for k := 0 to |history|
        invariant k == 0 ==> stored == None
        invariant k > 0 ==> stored == Some(Bounded(history[..k], maxItems))
      {
        assert history[..k + 1][..k] == history[..k];
        Update(history[k], maxItems);
      }
      assert history[..|history|] == history;
      BoundedRefinesRecent(history, maxItems);
      RecentIsSurviving(history);
      LatestAreShown(history, maxItems);
    }
  }

  // What is kept of the first k events.
  predicate IsKeptOf(newer: Event, events: seq<Event>, k: nat, kept: seq<Event>) {
    k <= |events| && kept + Kept(newer, events[k..]) == Kept(newer, events)
  }

  lemma KeptNext(newer: Event, events: seq<Event>, k: nat, kept: seq<Event>)
    requires k < |events| && IsKeptOf(newer, events, k, kept)
    ensures IsKeptOf(newer, events, k + 1, if Drops(newer, events[k]) then kept else kept + [events[k]])
  {
    assert events[k..][0] == events[k] && events[k..][1..] == events[k + 1..];
  }

  lemma KeptWhole(newer: Event, events: seq<Event>, kept: seq<Event>)
    ensures kept == [] ==> IsKeptOf(newer, events, 0, kept)
    ensures IsKeptOf(newer, events, |events|, kept) ==> kept == Kept(newer, events)
  {
    assert events[0..] == events && events[|events|..] == [];
  }

  method Retain(newer: Event, events: seq<Event>) returns (kept: seq<Event>)
    ensures kept == Kept(newer, events)
  {
    kept := [];
    KeptWhole(newer, events, kept);
    for k := 0 to |events|
      invariant IsKeptOf(newer, events, k, kept)
    {
      KeptNext(newer, events, k, kept);
      if !Drops(newer, events[k]) {
        kept := kept + [events[k]];
      }
    }
    KeptWhole(newer, events, kept);
  }

  // ---------- the bounded and the unbounded list ----------

  function Bounded(history: seq<Event>, maxItems: nat): seq<Event> {
    if history == [] then []
    else
      var e := history[|history| - 1];
      Prefix([e] + Kept(e, Bounded(history[..|history| - 1], maxItems)), maxItems)
  }

  // Move to front, without a bound.
  function Recent(history: seq<Event>): seq<Event> {
    if history == [] then []
    else [history[|history| - 1]] + Kept(history[|history| - 1], Recent(history[..|history| - 1]))
  }

  // The delivery is not overridden by a later one.
  predicate Survives(history: seq<Event>, i: nat)
    requires i < |history|
  {
    forall j :: i < j < |history| ==> !Drops(history[j], history[i])
  }

  // The surviving deliveries from index i on, latest first.
  function Surviving(history: seq<Event>, i: nat): seq<Event>
    requires i <= |history|
    decreases |history| - i
  {
    if i == |history| then []
    else Surviving(history, i + 1) + (if Survives(history, i) then [history[i]] else [])
  }

  // No later delivery carries the id of delivery i; one without an id counts as having the empty one.
  predicate IsLast(history: seq<Event>, i: nat) {
    i < |history| &&
    (history[i].id.Some? ==> forall j :: i < j < |history| ==>
       if history[j].id.Some? then history[j].id.value != history[i].id.value else history[i].id.value != "")
  }

  predicate Decreases(s: seq<nat>) {
    forall i, j :: 0 <= i < j < |s| ==> s[i] > s[j]
  }

  // The list shows the deliveries at these positions: the latest ones that no later one overrides,
  // latest first, at most maxItems of them and as many as there are.
  predicate IsLatest(history: seq<Event>, maxItems: nat, list: seq<Event>, at: seq<nat>) {
    && |list| == |at| <= maxItems && Decreases(at)
    && (forall k :: 0 <= k < |at| ==> IsLast(history, at[k]) && list[k] == history[at[k]])
    && (forall i :: 0 <= i < |history| && IsLast(history, i) && i !in at ==>
          |at| == maxItems && forall k :: 0 <= k < |at| ==> i < at[k])
  }

  ghost predicate ShowsLatest(history: seq<Event>, maxItems: nat, list: seq<Event>) {
    exists at :: IsLatest(history, maxItems, list, at)
  }

  lemma SurvivesMeaning(history: seq<Event>, i: nat)
    requires i < |history|
    ensures Survives(history, i) <==> IsLast(history, i)
  {
  }

  lemma {:induction false} SurvivingPositions(history: seq<Event>, i: nat) returns (at: seq<nat>)
    requires i <= |history|
    ensures Decreases(at) && |at| == |Surviving(history, i)|
    ensures forall k :: 0 <= k < |at| ==> i <= at[k] < |history| && Surviving(history, i)[k] == history[at[k]]
    ensures forall j :: i <= j < |history| ==> (j in at <==> IsLast(history, j))
    decreases |history| - i
  {
    at := [];
    if i < |history| {
      at := SurvivingPositions(history, i + 1);
      SurvivesMeaning(history, i);
      if Survives(history, i) {
        at := at + [i];
      }
    }
  }

  // The positions of all surviving deliveries, latest first.
  predicate AreAllLast(history: seq<Event>, all: seq<nat>) {
    && Decreases(all)
    && (forall k :: 0 <= k < |all| ==> IsLast(history, all[k]))
    && (forall i :: 0 <= i < |history| && IsLast(history, i) ==> i in all)
  }

  lemma LeftOutIsOlder(all: seq<nat>, n: nat, i: nat)
    requires Decreases(all) && n <= |all| && i in all && i !in all[..n]
    ensures n < |all| && forall k :: 0 <= k < n ==> i < all[k]
  {
    var j :| 0 <= j < |all| && all[j] == i;
    forall k | 0 <= k < n
      ensures all[k] != i
    {
      assert all[..n][k] == all[k];
    }
    assert j >= n;
  }

  lemma FirstAreLatest(history: seq<Event>, maxItems: nat, list: seq<Event>, all: seq<nat>)
    requires AreAllLast(history, all) && |list| == |all|
    requires forall k :: 0 <= k < |all| ==> all[k] < |history| && list[k] == history[all[k]]
    ensures ShowsLatest(history, maxItems, Prefix(list, maxItems))
  {
    var n := if |all| > maxItems then maxItems else |all|;
    forall i | 0 <= i < |history| && IsLast(history, i) && i !in all[..n]
      ensures n == maxItems && forall k :: 0 <= k < n ==> i < all[..n][k]
    {
      LeftOutIsOlder(all, n, i);
    }
    assert IsLatest(history, maxItems, Prefix(list, maxItems), all[..n]);
  }

  lemma LatestAreShown(history: seq<Event>, maxItems: nat)
    ensures ShowsLatest(history, maxItems, Prefix(Surviving(history, 0), maxItems))
  {
    var all := SurvivingPositions(history, 0);
    forall k | 0 <= k < |all|
      ensures IsLast(history, all[k])
    {
      assert all[k] in all;
    }
    FirstAreLatest(history, maxItems, Surviving(history, 0), all);
  }

  predicate DistinctIds(events: seq<Event>) {
    forall i, j :: 0 <= i < j < |events| && events[i].id.Some? ==> events[i].id != events[j].id
  }

  lemma {:induction false} KeptConcat(e: Event, a: seq<Event>, b: seq<Event>)
    ensures Kept(e, a + b) == Kept(e, a) + Kept(e, b)
  {
    if a == [] {
      assert a + b == b;
    } else {
      var here := if Drops(e, a[0]) then [] else [a[0]];
      KeptConcat(e, a[1..], b);
      assert (a + b)[1..] == a[1..] + b;
      assert Kept(e, a + b) == here + (Kept(e, a[1..]) + Kept(e, b));
    }
  }

  lemma {:induction false} KeptAll(e: Event, events: seq<Event>)
    requires forall x :: x in events ==> !Drops(e, x)
    ensures Kept(e, events) == events
  {
    if events != [] {
      KeptAll(e, events[1..]);
    }
  }

  lemma {:induction false} KeptMembers(e: Event, events: seq<Event>)
    ensures forall x :: x in Kept(e, events) <==> x in events && !Drops(e, x)
  {
    if events != [] {
      KeptMembers(e, events[1..]);
      assert forall x :: x in events <==> x == events[0] || x in events[1..];
    }
  }

  lemma {:induction false} KeptDistinct(e: Event, events: seq<Event>)
    requires DistinctIds(events)
    ensures DistinctIds(Kept(e, events))
  {
    if events != [] {
      KeptDistinct(e, events[1..]);
      KeptMembers(e, events[1..]);
      var rest := Kept(e, events[1..]);
      forall j | 0 <= j < |rest| && events[0].id.Some?
        ensures rest[j].id != events[0].id
      {
        assert rest[j] in events[1..];
      }
    }
  }

  // No id is shown twice.
  lemma {:induction false} RecentIsDistinct(history: seq<Event>)
    ensures DistinctIds(Recent(history))
  {
    if history != [] {
      var e, before := history[|history| - 1], Recent(history[..|history| - 1]);
      RecentIsDistinct(history[..|history| - 1]);
      KeptDistinct(e, before);
      KeptMembers(e, before);
      forall j | 0 <= j < |Kept(e, before)| && e.id.Some?
        ensures Kept(e, before)[j].id != e.id
      {
        assert Kept(e, before)[j] in Kept(e, before);
      }
    }
  }

  // At most one element is dropped from a list without repeated ids.
  lemma {:induction false} DropsAtMostOne(e: Event, events: seq<Event>)
    requires DistinctIds(events)
    ensures |events| - 1 <= |Kept(e, events)| <= |events|
  {
    if events != [] {
      if Drops(e, events[0]) {
        forall x | x in events[1..]
          ensures !Drops(e, x)
        {
          assert x.id != events[0].id;
        }
        KeptAll(e, events[1..]);
      } else {
        DropsAtMostOne(e, events[1..]);
      }
    }
  }

  // The bounded list is the front of the unbounded one, whatever was delivered and however often.
  lemma {:induction false} BoundedRefinesRecent(history: seq<Event>, maxItems: nat)
    ensures Bounded(history, maxItems) == Prefix(Recent(history), maxItems)
  {
    if history != [] {
      var e, front := history[|history| - 1], history[..|history| - 1];
      BoundedRefinesRecent(front, maxItems);
      var all := Recent(front);
      RecentIsDistinct(front);
      if |all| > maxItems {
        var a, b := all[..maxItems], all[maxItems..];
        KeptConcat(e, a, b);
        assert all == a + b;
        DropsAtMostOne(e, a);
      }
    }
  }

  lemma {:induction false} SurvivingAfter(history: seq<Event>, e: Event, i: nat)
    requires i <= |history|
    ensures Surviving(history + [e], i) == [e] + Kept(e, Surviving(history, i))
    decreases |history| - i
  {
    var after := history + [e];
    if i < |history| {
      SurvivingAfter(history, e, i + 1);
      var here := if Survives(history, i) then [history[i]] else [];
      KeptConcat(e, Surviving(history, i + 1), here);
      SurvivesAfter(history, e, i);
    } else {
      assert Survives(after, i);
      assert Surviving(after, i + 1) == [];
    }
  }

  lemma SurvivesAfter(history: seq<Event>, e: Event, i: nat)
    requires i < |history|
    ensures Survives(history + [e], i) <==> Survives(history, i) && !Drops(e, history[i])
  {
    var after := history + [e];
    assert after[|history|] == e;
    if Survives(after, i) {
      forall j | i < j < |history|
        ensures !Drops(history[j], history[i])
      {
        assert after[j] == history[j];
      }
    }
  }

  // Move-to-front shows exactly the deliveries that no later one overrides, latest first.
  lemma {:induction false} RecentIsSurviving(history: seq<Event>)
    ensures Recent(history) == Surviving(history, 0)
  {
    if history != [] {
      var e, front := history[|history| - 1], history[..|history| - 1];
      RecentIsSurviving(front);
      SurvivingAfter(front, e, 0);
      assert history == front + [e];
    }
  }
}
