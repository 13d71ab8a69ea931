/** What every sequence of brain-memory batches keeps, and why replaying one is harmless. */
module BrainHistory {
  import opened BrainMemory
  import opened Options

  // ---------- one active row per key, links to later rows ----------

  lemma NoActiveMeansNoRow(t: Table, key: Key)
    requires StoreInvariant(t) && FindActive(t.rows, key).None?
    ensures forall i :: 0 <= i < |t.rows| ==> t.rows[i].key != key
  {
    forall i | 0 <= i < |t.rows|
      ensures t.rows[i].key != key
    {
      assert RowOk(t.rows, i);
    }
  }

  lemma LinkSurvives(rows: seq<Row>, after: seq<Row>, i: nat)
    requires i < |rows| <= |after| && LinkOk(rows, i) && after[i] == rows[i]
    requires forall j :: 0 <= j < |rows| ==> after[j].id == rows[j].id && after[j].key == rows[j].key
    ensures LinkOk(after, i)
  {
    if !rows[i].active {
      var j :| i < j < |rows| && rows[j].key == rows[i].key && rows[i].supersededBy == Some(rows[j].id);
      assert after[j].key == after[i].key && after[i].supersededBy == Some(after[j].id);
    }
  }

  // A key whose rows are all untouched keeps its one active row.
  lemma OneActiveSurvives(rows: seq<Row>, after: seq<Row>, key: Key)
    requires OneActive(rows, key) && |rows| <= |after|
    requires forall j :: 0 <= j < |rows| ==> after[j].key == rows[j].key &&
                                             (rows[j].key == key ==> after[j].active == rows[j].active)
    requires forall j :: |rows| <= j < |after| ==> after[j].key != key
    ensures OneActive(after, key)
  {
    var i :| IsOnlyActive(rows, key, i);
    assert IsOnlyActive(after, key, i);
  }

  lemma InsertKeepsRow(t: Table, c: Candidate, now: int, i: nat)
    requires i < |t.rows| && RowOk(t.rows, i) && t.rows[i].key != c.key
    ensures RowOk(Inserted(t, c, now).rows, i)
  {
    var after := Inserted(t, c, now).rows;
    LinkSurvives(t.rows, after, i);
    OneActiveSurvives(t.rows, after, t.rows[i].key);
  }

  lemma InsertKeepsInvariant(t: Table, c: Candidate, now: int)
    requires StoreInvariant(t) && FindActive(t.rows, c.key).None?
    ensures StoreInvariant(Inserted(t, c, now))
  {
    var after := Inserted(t, c, now).rows;
    NoActiveMeansNoRow(t, c.key);
    forall i | 0 <= i < |after|
      ensures RowOk(after, i)
    {
      if i < |t.rows| {
        InsertKeepsRow(t, c, now, i);
      } else {
        assert IsOnlyActive(after, c.key, i);
      }
    }
  }

  lemma UpdateKeepsRow(rows: seq<Row>, after: seq<Row>, k: nat)
    requires k < |rows| == |after| && RowOk(rows, k)
    requires forall j :: 0 <= j < |rows| ==> SameLinks(rows[j], after[j])
    ensures RowOk(after, k)
  {
    if !rows[k].active {
      var j :| k < j < |rows| && rows[j].key == rows[k].key && rows[k].supersededBy == Some(rows[j].id);
      assert SameLinks(rows[j], after[j]);
      assert after[j].key == after[k].key && after[k].supersededBy == Some(after[j].id);
    }
    OneActiveSurvives(rows, after, rows[k].key);
  }

  predicate SameLinks(a: Row, b: Row) {
    a.id == b.id && a.key == b.key && a.active == b.active && a.supersededBy == b.supersededBy
  }

  lemma MergeKeepsInvariant(t: Table, i: nat, row: Row)
    requires StoreInvariant(t) && i < |t.rows| && SameLinks(t.rows[i], row)
    ensures StoreInvariant(t.(rows := t.rows[i := row]))
  {
    var after := t.rows[i := row];
    forall k | 0 <= k < |after|
      ensures RowOk(after, k)
    {
      UpdateKeepsRow(t.rows, after, k);
    }
  }

  // The rows after row i has been superseded by a new last row.
  predicate IsSuperseding(rows: seq<Row>, after: seq<Row>, i: nat) {
    && i < |rows| && |after| == |rows| + 1
    && after[|rows|].active && after[|rows|].key == rows[i].key
    && (forall j :: 0 <= j < |rows| && j != i ==> after[j] == rows[j])
    && after[i].id == rows[i].id && after[i].key == rows[i].key
    && !after[i].active && after[i].supersededBy == Some(after[|rows|].id)
  }

  lemma NewRowIsOnlyActive(rows: seq<Row>, after: seq<Row>, i: nat)
    requires IsSuperseding(rows, after, i) && rows[i].active && OneActive(rows, rows[i].key)
    ensures OneActive(after, rows[i].key)
  {
    var k :| IsOnlyActive(rows, rows[i].key, k);
    assert k == i;
    assert IsOnlyActive(after, rows[i].key, |rows|);
  }

  lemma SupersedeKeepsRow(rows: seq<Row>, after: seq<Row>, i: nat, k: nat)
    requires IsSuperseding(rows, after, i) && rows[i].active && k < |rows| && RowOk(rows, k) && RowOk(rows, i)
    ensures RowOk(after, k)
  {
    if k == i {
      assert after[|rows|].key == after[i].key && after[i].supersededBy == Some(after[|rows|].id);
      NewRowIsOnlyActive(rows, after, i);
    } else {
      LinkSurvives(rows, after, k);
      if rows[k].key == rows[i].key {
        NewRowIsOnlyActive(rows, after, i);
      } else {
        OneActiveSurvives(rows, after, rows[k].key);
      }
    }
  }

  lemma SupersedeKeepsInvariant(t: Table, c: Candidate, now: int, i: nat)
    requires StoreInvariant(t) && FindActive(t.rows, c.key) == Some(i)
    ensures StoreInvariant(Table(Inserted(t, c, now).rows[i := SupersededRow(t.rows[i], t.nextId, now)], t.nextId + 1))
  {
    var n := |t.rows|;
    var after := Inserted(t, c, now).rows[i := SupersededRow(t.rows[i], t.nextId, now)];
    assert after[n] == NewRow(t.nextId, c, now);
    assert RowOk(t.rows, i);
    forall k | 0 <= k < |after|
      ensures RowOk(after, k)
    {
      if k < n {
        SupersedeKeepsRow(t.rows, after, i, k);
      } else {
        NewRowIsOnlyActive(t.rows, after, i);
      }
    }
  }

  lemma SaveKeepsInvariant(t: Table, c: Candidate, now: int)
    requires StoreInvariant(t)
    ensures StoreInvariant(Saved(t, c, now))
  {
    var found := FindActive(t.rows, c.key);
    if found.None? {
      InsertKeepsInvariant(t, c, now);
    } else if SameContent(t.rows[found.value], c) {
      MergeKeepsInvariant(t, found.value, MergedRow(t.rows[found.value], c, now));
    } else if ShouldSupersede(t.rows[found.value], c) {
      SupersedeKeepsInvariant(t, c, now, found.value);
    }
  }

  lemma {:induction false} BatchKeepsInvariant(t: Table, cs: seq<Candidate>, now: int)
    requires StoreInvariant(t)
    ensures StoreInvariant(SavedAll(t, cs, now))
  {
    if cs != [] {
      BatchKeepsInvariant(t, cs[..|cs| - 1], now);
      SaveKeepsInvariant(SavedAll(t, cs[..|cs| - 1], now), cs[|cs| - 1], now);
    }
  }

  // A committed batch, or an aborted one that only used up ids.
  datatype Transaction = Committed(candidates: seq<Candidate>, now: int) | Aborted(idsDrawn: nat)

  function AfterOne(before: Table, tx: Transaction): Table {
    match tx
    case Committed(cs, now) => SavedAll(before, cs, now)
    case Aborted(n) => before.(nextId := before.nextId + n)
  }

  function AfterAll(history: seq<Transaction>): Table {
    if history == [] then Table([], 1)
    else
      AfterOne(AfterAll(history[..|history| - 1]), history[|history| - 1])
  }

  // Over every sequence of committed and aborted batches.
  lemma {:induction false} HistoryKeepsInvariant(history: seq<Transaction>)
    ensures StoreInvariant(AfterAll(history))
  {
    if history != [] {
      var before := AfterAll(history[..|history| - 1]);
      HistoryKeepsInvariant(history[..|history| - 1]);
      match history[|history| - 1]
      case Committed(cs, now) => BatchKeepsInvariant(before, cs, now);
      case Aborted(n) =>
        var after := before.(nextId := before.nextId + n);
        assert forall i :: 0 <= i < |after.rows| ==> RowOk(before.rows, i);
    }
  }

  // ---------- following superseded_by ----------

  function IndexOfId(rows: seq<Row>, id: nat): (i: nat)
    ensures i <= |rows|
    ensures i < |rows| ==> rows[i].id == id
    ensures forall j :: 0 <= j < i ==> rows[j].id != id
  {
    if rows == [] || rows[0].id == id then 0 else 1 + IndexOfId(rows[1..], id)
  }

  lemma SuccessorIsLater(t: Table, i: nat)
    requires StoreInvariant(t) && i < |t.rows| && !t.rows[i].active
    ensures t.rows[i].supersededBy.Some?
    ensures i < IndexOfId(t.rows, t.rows[i].supersededBy.value) < |t.rows|
    ensures t.rows[i].supersededBy.value > t.rows[i].id
    ensures t.rows[IndexOfId(t.rows, t.rows[i].supersededBy.value)].key == t.rows[i].key
  {
    assert RowOk(t.rows, i);
    var j :| i < j < |t.rows| && t.rows[j].key == t.rows[i].key && t.rows[i].supersededBy == Some(t.rows[j].id);
    var k := IndexOfId(t.rows, t.rows[j].id);
    assert k == j;
  }

  // Where the chain of superseded_by links from a row ends.
  ghost function ChainEnd(t: Table, i: nat): nat
    requires StoreInvariant(t) && i < |t.rows|
    decreases |t.rows| - i
  {
    if t.rows[i].active then i
    else
      SuccessorIsLater(t, i);
      ChainEnd(t, IndexOfId(t.rows, t.rows[i].supersededBy.value))
  }

  // Every chain ends at the one active row of its key, the row a lookup finds.
  lemma {:induction false} ChainEndsAtActiveRow(t: Table, i: nat)
    requires StoreInvariant(t) && i < |t.rows|
    ensures FindActive(t.rows, t.rows[i].key) == Some(ChainEnd(t, i))
    ensures i <= ChainEnd(t, i) < |t.rows|
    decreases |t.rows| - i
  {
    if t.rows[i].active {
      assert RowOk(t.rows, i);
    } else {
      SuccessorIsLater(t, i);
      ChainEndsAtActiveRow(t, IndexOfId(t.rows, t.rows[i].supersededBy.value));
    }
  }

  // ---------- what a row keeps for ever ----------

  // Rows are never deleted; identity, kind, creation time and normalised content never change;
  // confidence never falls; a superseded row is never touched again.
  predicate RowEvolves(a: Row, b: Row) {
    && a.id == b.id && a.key == b.key && a.kind == b.kind && a.createdAt == b.createdAt
    && Normalized(a.content) == Normalized(b.content)
    && a.confidence <= b.confidence
    && (!a.active ==> a == b)
  }

  ghost predicate Evolves(a: Table, b: Table) {
    && |a.rows| <= |b.rows| && a.nextId <= b.nextId
    && forall i :: 0 <= i < |a.rows| ==> RowEvolves(a.rows[i], b.rows[i])
  }

  lemma SaveEvolves(t: Table, c: Candidate, now: int)
    ensures Evolves(t, Saved(t, c, now))
  {
  }

  lemma {:induction false} BatchEvolves(t: Table, cs: seq<Candidate>, now: int)
    ensures Evolves(t, SavedAll(t, cs, now))
  {
    if cs != [] {
      var before := SavedAll(t, cs[..|cs| - 1], now);
      BatchEvolves(t, cs[..|cs| - 1], now);
      SaveEvolves(before, cs[|cs| - 1], now);
      EvolvesTransitive(t, before, SavedAll(t, cs, now));
    }
  }

  lemma EvolvesTransitive(a: Table, b: Table, c: Table)
    requires Evolves(a, b) && Evolves(b, c)
    ensures Evolves(a, c)
  {
    forall i | 0 <= i < |a.rows|
      ensures RowEvolves(a.rows[i], c.rows[i])
    {
      assert RowEvolves(a.rows[i], b.rows[i]) && RowEvolves(b.rows[i], c.rows[i]);
    }
  }

  // After a save the key's active row says what the candidate says, at least as confidently;
  // only an existing row of a later turn and clearly higher confidence resists, unchanged.
  lemma SaveOutcome(t: Table, c: Candidate, now: int)
    ensures var after := Saved(t, c, now);
      var found := FindActive(after.rows, c.key);
      && found.Some?
      && var row := after.rows[found.value];
         if SameContent(row, c) then row.confidence >= c.confidence
         else after == t && !NewerTurn(row.sourceTurnId, c.sourceTurnId) && c.confidence + 0.05 < row.confidence
  {
    var found := FindActive(t.rows, c.key);
    var after := Saved(t, c, now);
    if found.Some? && SameContent(t.rows[found.value], c) {
      assert after.rows[found.value].active && after.rows[found.value].key == c.key;
      FindActiveAfterUpdate(t.rows, found.value, MergedRow(t.rows[found.value], c, now), c.key);
    }
  }

  // Updating the active row in place does not change which row a lookup finds.
  lemma {:induction false} FindActiveAfterUpdate(rows: seq<Row>, i: nat, row: Row, key: Key)
    requires i < |rows| && row.active == rows[i].active && row.key == rows[i].key
    ensures FindActive(rows[i := row], key) == FindActive(rows, key)
  {
    if i < |rows| - 1 {
      FindActiveAfterUpdate(rows[..|rows| - 1], i, row, key);
      assert rows[i := row][..|rows| - 1] == rows[..|rows| - 1][i := row];
    } else {
      assert rows[i := row][..|rows| - 1] == rows[..|rows| - 1];
    }
  }
}
