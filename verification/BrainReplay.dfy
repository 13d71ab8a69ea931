/** Replaying a batch: the bus delivers at least once, so a batch may be applied twice. */
module BrainReplay {
  import opened BrainHistory
  import opened BrainMemory

  // Equal but for the time of the last update.
  predicate SameButStamp(a: Row, b: Row) {
    a.(updatedAt := 0) == b.(updatedAt := 0)
  }

  ghost predicate SameTable(t: Table, u: Table) {
    && t.nextId == u.nextId && |t.rows| == |u.rows|
    && forall i :: 0 <= i < |t.rows| ==> SameButStamp(t.rows[i], u.rows[i])
  }

  // Saving the candidate once more changes nothing but a stamp.
  predicate IsSettled(t: Table, c: Candidate) {
    var found := FindActive(t.rows, c.key);
    && found.Some?
    && var row := t.rows[found.value];
       if SameContent(row, c) then SameButStamp(MergedRow(row, c, 0), row) else !ShouldSupersede(row, c)
  }

  lemma {:induction false} SameLookup(a: seq<Row>, b: seq<Row>, key: Key)
    requires |a| == |b| && forall i :: 0 <= i < |a| ==> a[i].active == b[i].active && a[i].key == b[i].key
    ensures FindActive(a, key) == FindActive(b, key)
  {
    if a != [] {
      SameLookup(a[..|a| - 1], b[..|b| - 1], key);
    }
  }

  lemma SettledRestamps(t: Table, c: Candidate, now: int)
    requires IsSettled(t, c)
    ensures SameTable(t, Saved(t, c, now))
  {
    var i := FindActive(t.rows, c.key).value;
    if SameContent(t.rows[i], c) {
      assert MergedRow(t.rows[i], c, now).(updatedAt := 0) == MergedRow(t.rows[i], c, 0);
    }
  }

  lemma SettledUpToStamps(t: Table, u: Table, c: Candidate)
    requires SameTable(t, u) && IsSettled(t, c)
    ensures IsSettled(u, c)
  {
    forall i | 0 <= i < |t.rows|
      ensures t.rows[i].active == u.rows[i].active && t.rows[i].key == u.rows[i].key
    {
      assert SameButStamp(t.rows[i], u.rows[i]);
    }
    SameLookup(t.rows, u.rows, c.key);
    var i := FindActive(t.rows, c.key).value;
    assert SameButStamp(t.rows[i], u.rows[i]);
    SettledRow(t.rows[i], u.rows[i], c);
  }

  lemma SettledRow(a: Row, b: Row, c: Candidate)
    requires SameButStamp(a, b)
    ensures SameContent(a, c) <==> SameContent(b, c)
    ensures ShouldSupersede(a, c) <==> ShouldSupersede(b, c)
    ensures MergedRow(a, c, 0) == MergedRow(b, c, 0)
  {
    assert a.(updatedAt := 0).content == b.(updatedAt := 0).content;
    assert a.(updatedAt := 0) == b.(updatedAt := 0);
    assert MergedRow(a, c, 0) == MergedRow(a.(updatedAt := 0), c, 0);
    assert MergedRow(b, c, 0) == MergedRow(b.(updatedAt := 0), c, 0);
  }

  // Merging a candidate twice is merging it once.
  lemma MergeIsIdempotent(r: Row, c: Candidate, now: int, later: int)
    ensures MergedRow(MergedRow(r, c, now), c, later) == MergedRow(r, c, later)
    ensures SameContent(MergedRow(r, c, now), c)
  {
  }

  lemma InsertedIsMerged(id: nat, c: Candidate, now: int)
    ensures SameContent(NewRow(id, c, now), c) && SameButStamp(MergedRow(NewRow(id, c, now), c, 0), NewRow(id, c, now))
  {
  }

  lemma SaveSettles(t: Table, c: Candidate, now: int)
    ensures IsSettled(Saved(t, c, now), c)
  {
    var found := FindActive(t.rows, c.key);
    var after := Saved(t, c, now);
    InsertedIsMerged(t.nextId, c, now);
    if found.Some? {
      var r := t.rows[found.value];
      if SameContent(r, c) {
        MergeIsIdempotent(r, c, now, 0);
        FindActiveAfterUpdate(t.rows, found.value, MergedRow(r, c, now), c.key);
        assert SameButStamp(MergedRow(MergedRow(r, c, now), c, 0), MergedRow(r, c, now));
      }
    }
  }

  // Rows of another key are out of reach.
  lemma {:induction false} LookupUnchanged(rows: seq<Row>, i: nat, row: Row, key: Key)
    requires i < |rows| && rows[i].key != key && row.key != key
    ensures FindActive(rows[i := row], key) == FindActive(rows, key)
  {
    var n := |rows| - 1;
    if i < n {
      LookupUnchanged(rows[..n], i, row, key);
      assert rows[i := row][..n] == rows[..n][i := row];
    } else {
      assert rows[i := row][..n] == rows[..n];
    }
  }

  lemma LookupPastNewRow(rows: seq<Row>, row: Row, key: Key)
    requires row.key != key
    ensures FindActive(rows + [row], key) == FindActive(rows, key)
  {
    assert (rows + [row])[..|rows|] == rows;
  }

  // A lookup finds the same row, unchanged.
  predicate SameFind(rows: seq<Row>, after: seq<Row>, key: Key) {
    var found := FindActive(rows, key);
    && FindActive(after, key) == found
    && (found.Some? ==> found.value < |after| && after[found.value] == rows[found.value])
  }

  lemma InsertTouchesNoOther(t: Table, d: Candidate, now: int, key: Key)
    requires d.key != key
    ensures SameFind(t.rows, Inserted(t, d, now).rows, key)
  {
    LookupPastNewRow(t.rows, NewRow(t.nextId, d, now), key);
  }

  lemma UpdateTouchesNoOther(rows: seq<Row>, i: nat, row: Row, key: Key)
    requires i < |rows| && rows[i].key != key && row.key != key
    ensures SameFind(rows, rows[i := row], key)
  {
    LookupUnchanged(rows, i, row, key);
  }

  lemma OtherKeyUntouched(t: Table, d: Candidate, now: int, key: Key)
    requires d.key != key
    ensures SameFind(t.rows, Saved(t, d, now).rows, key)
  {
    var found := FindActive(t.rows, d.key);
    InsertTouchesNoOther(t, d, now, key);
    if found.Some? {
      var i := found.value;
      UpdateTouchesNoOther(t.rows, i, MergedRow(t.rows[i], d, now), key);
      UpdateTouchesNoOther(Inserted(t, d, now).rows, i, SupersededRow(t.rows[i], t.nextId, now), key);
    }
  }

  lemma SettledStays(t: Table, c: Candidate, d: Candidate, now: int)
    requires IsSettled(t, c) && d.key != c.key
    ensures IsSettled(Saved(t, d, now), c)
  {
    OtherKeyUntouched(t, d, now, c.key);
  }

  predicate DistinctKeys(cs: seq<Candidate>) {
    forall i, j :: 0 <= i < j < |cs| ==> cs[i].key != cs[j].key
  }

  lemma {:induction false} BatchSettles(t: Table, cs: seq<Candidate>, now: int, k: nat)
    requires DistinctKeys(cs) && k < |cs|
    ensures IsSettled(SavedAll(t, cs, now), cs[k])
  {
    var n := |cs| - 1;
    var before := SavedAll(t, cs[..n], now);
    if k == n {
      SaveSettles(before, cs[n], now);
    } else {
      BatchSettles(t, cs[..n], now, k);
      SettledStays(before, cs[k], cs[n], now);
    }
  }

  lemma SameTableTransitive(t: Table, u: Table, v: Table)
    requires SameTable(t, u) && SameTable(u, v)
    ensures SameTable(t, v)
  {
    forall i | 0 <= i < |t.rows|
      ensures SameButStamp(t.rows[i], v.rows[i])
    {
      assert SameButStamp(t.rows[i], u.rows[i]) && SameButStamp(u.rows[i], v.rows[i]);
    }
  }

  lemma {:induction false} SettledBatchRestamps(u: Table, cs: seq<Candidate>, now: int)
    requires forall k :: 0 <= k < |cs| ==> IsSettled(u, cs[k])
    ensures SameTable(u, SavedAll(u, cs, now))
  {
    if cs != [] {
      var n := |cs| - 1;
      var before := SavedAll(u, cs[..n], now);
      SettledBatchRestamps(u, cs[..n], now);
      SettledUpToStamps(u, before, cs[n]);
      SettledRestamps(before, cs[n], now);
      SameTableTransitive(u, before, SavedAll(u, cs, now));
    }
  }

  // Applying a batch with at most one candidate per key a second time adds no row, draws no id
  // and changes nothing but update stamps.
  lemma ReplayIsHarmless(t: Table, cs: seq<Candidate>, now: int, later: int)
    requires DistinctKeys(cs)
    ensures SameTable(SavedAll(t, cs, now), SavedAll(SavedAll(t, cs, now), cs, later))
  {
    forall k | 0 <= k < |cs|
      ensures IsSettled(SavedAll(t, cs, now), cs[k])
    {
      BatchSettles(t, cs, now, k);
    }
    SettledBatchRestamps(SavedAll(t, cs, now), cs, later);
  }
}
