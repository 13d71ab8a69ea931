/** Exactly when replaying a batch adds rows, and when it changes nothing: the fate of each active
    row under the batch can be worked out from the row and the batch alone. */
module BrainReplayWalk {
  import opened BrainHistory
  import opened BrainMemory
  import opened BrainReplay
  import opened Options
  import opened Text

  // What one candidate makes of an active row: merged, left alone, or nothing when superseded.
  function Meet(r: Row, c: Candidate): Option<Row> {
    if c.key != r.key then Some(r)
    else if SameContent(r, c) then Some(MergedRow(r, c, 0))
    else if ShouldSupersede(r, c) then None
    else Some(r)
  }

  // The batch's candidates met one after another.
  function Walk(r: Row, cs: seq<Candidate>): Option<Row> {
    if cs == [] then Some(r)
    else
      var before := Walk(r, cs[..|cs| - 1]);
      if before.None? then None else Meet(before.value, cs[|cs| - 1])
  }

  predicate Survives(t: Table, cs: seq<Candidate>, key: Key) {
    var i := FindActive(t.rows, key);
    i.Some? && Walk(t.rows[i.value], cs).Some?
  }

  // The walk leads back to the row it started from.
  predicate Returns(t: Table, cs: seq<Candidate>, key: Key) {
    Survives(t, cs, key) &&
    var r := t.rows[FindActive(t.rows, key).value];
    SameButStamp(Walk(r, cs).value, r)
  }

  ghost predicate HasActive(t: Table, cs: seq<Candidate>) {
    forall c :: c in cs ==> FindActive(t.rows, c.key).Some?
  }

  ghost predicate AllSurvive(t: Table, cs: seq<Candidate>) {
    forall c :: c in cs ==> Survives(t, cs, c.key)
  }

  ghost predicate AllReturn(t: Table, cs: seq<Candidate>) {
    forall c :: c in cs ==> Returns(t, cs, c.key)
  }

  lemma MeetUpToStamps(a: Row, b: Row, c: Candidate)
    requires SameButStamp(a, b)
    ensures Meet(a, c).Some? <==> Meet(b, c).Some?
    ensures Meet(a, c).Some? ==> SameButStamp(Meet(a, c).value, Meet(b, c).value)
  {
    SettledRow(a, b, c);
    assert a.(updatedAt := 0).key == b.(updatedAt := 0).key;
  }

  lemma {:induction false} WalkKeepsKey(r: Row, cs: seq<Candidate>)
    requires Walk(r, cs).Some?
    ensures Walk(r, cs).value.key == r.key
  {
    if cs != [] {
      WalkKeepsKey(r, cs[..|cs| - 1]);
    }
  }

  // One save follows the walk of the active row of any key.
  lemma SaveMeets(t: Table, c: Candidate, now: int, key: Key)
    requires FindActive(t.rows, key).Some? && Meet(t.rows[FindActive(t.rows, key).value], c).Some?
    ensures var i := FindActive(t.rows, key).value;
      var after := Saved(t, c, now);
      && FindActive(after.rows, key) == Some(i)
      && SameButStamp(after.rows[i], Meet(t.rows[i], c).value)
  {
    var i := FindActive(t.rows, key).value;
    var r := t.rows[i];
    if c.key != key {
      OtherKeyUntouched(t, c, now, key);
    } else if SameContent(r, c) {
      FindActiveAfterUpdate(t.rows, i, MergedRow(r, c, now), key);
      assert MergedRow(r, c, now).(updatedAt := 0) == MergedRow(r, c, 0).(updatedAt := 0);
    }
  }

  // And so does a batch, as long as the row survives.
  lemma {:induction false} BatchWalks(t: Table, cs: seq<Candidate>, now: int, key: Key)
    requires Survives(t, cs, key)
    ensures var i := FindActive(t.rows, key).value;
      var after := SavedAll(t, cs, now);
      && FindActive(after.rows, key) == Some(i)
      && SameButStamp(after.rows[i], Walk(t.rows[i], cs).value)
  {
    if cs != [] {
      var n := |cs| - 1;
      var i := FindActive(t.rows, key).value;
      var before := SavedAll(t, cs[..n], now);
      BatchWalks(t, cs[..n], now, key);
      MeetUpToStamps(before.rows[i], Walk(t.rows[i], cs[..n]).value, cs[n]);
      SaveMeets(before, cs[n], now, key);
    }
  }

  lemma SaveGrowsIff(t: Table, c: Candidate, now: int)
    requires FindActive(t.rows, c.key).Some?
    ensures |Saved(t, c, now).rows| == |t.rows| <==> Meet(t.rows[FindActive(t.rows, c.key).value], c).Some?
    ensures |Saved(t, c, now).rows| >= |t.rows|
  {
  }

  lemma SurvivesPrefix(t: Table, cs: seq<Candidate>)
    requires cs != [] && AllSurvive(t, cs)
    ensures AllSurvive(t, cs[..|cs| - 1])
  {
    forall c | c in cs[..|cs| - 1]
      ensures Survives(t, cs[..|cs| - 1], c.key)
    {
      assert c in cs;
    }
  }

  // The last candidate finds the row its key's walk has led to.
  lemma LastMeets(t: Table, cs: seq<Candidate>, now: int)
    requires cs != [] && Survives(t, cs[..|cs| - 1], cs[|cs| - 1].key)
    ensures |SavedAll(t, cs, now).rows| == |SavedAll(t, cs[..|cs| - 1], now).rows| <==>
            Survives(t, cs, cs[|cs| - 1].key)
  {
    var n := |cs| - 1;
    var key := cs[n].key;
    var before := SavedAll(t, cs[..n], now);
    var i := FindActive(t.rows, key).value;
    BatchWalks(t, cs[..n], now, key);
    MeetUpToStamps(before.rows[i], Walk(t.rows[i], cs[..n]).value, cs[n]);
    SaveGrowsIff(before, cs[n], now);
  }

  lemma {:induction false} SurvivorsAddNoRow(t: Table, cs: seq<Candidate>, now: int)
    requires AllSurvive(t, cs)
    ensures |SavedAll(t, cs, now).rows| == |t.rows|
  {
    if cs != [] {
      var n := |cs| - 1;
      SurvivesPrefix(t, cs);
      SurvivorsAddNoRow(t, cs[..n], now);
      assert cs[n] in cs;
      LastMeets(t, cs, now);
    }
  }

  // Only a walk of the last candidate's own key can end with it.
  lemma OthersStillSurvive(t: Table, cs: seq<Candidate>, key: Key)
    requires cs != [] && Survives(t, cs[..|cs| - 1], key) && cs[|cs| - 1].key != key
    ensures Survives(t, cs, key)
  {
    WalkKeepsKey(t.rows[FindActive(t.rows, key).value], cs[..|cs| - 1]);
  }

  lemma {:induction false} CasualtyAddsRow(t: Table, cs: seq<Candidate>, now: int)
    requires HasActive(t, cs) && !AllSurvive(t, cs)
    ensures |SavedAll(t, cs, now).rows| > |t.rows|
  {
    var n := |cs| - 1;
    var front, last := cs[..n], cs[n];
    var before := SavedAll(t, front, now);
    forall c | c in front
      ensures c in cs
    {
    }
    BatchEvolves(t, front, now);
    SaveEvolves(before, last, now);
    if !AllSurvive(t, front) {
      CasualtyAddsRow(t, front, now);
    } else {
      LastCasualty(t, cs);
      LastMeets(t, cs, now);
    }
  }

  // The last candidate's key has survived so far, and no other key can fall at the last candidate.
  lemma SurvivedSoFar(t: Table, cs: seq<Candidate>)
    requires cs != [] && HasActive(t, cs) && AllSurvive(t, cs[..|cs| - 1])
    ensures Survives(t, cs[..|cs| - 1], cs[|cs| - 1].key)
  {
    var front, last := cs[..|cs| - 1], cs[|cs| - 1];
    assert last in cs;
    if c :| c in front && c.key == last.key {
      assert Survives(t, front, c.key);
    } else {
      StrangersPass(t.rows[FindActive(t.rows, last.key).value], front);
    }
  }

  lemma OthersSurviveLast(t: Table, cs: seq<Candidate>, c: Candidate)
    requires cs != [] && AllSurvive(t, cs[..|cs| - 1]) && c in cs && c.key != cs[|cs| - 1].key
    ensures Survives(t, cs, c.key)
  {
    assert c in cs[..|cs| - 1];
    OthersStillSurvive(t, cs, c.key);
  }

  lemma LastCasualty(t: Table, cs: seq<Candidate>)
    requires cs != [] && HasActive(t, cs) && AllSurvive(t, cs[..|cs| - 1]) && !AllSurvive(t, cs)
    ensures Survives(t, cs[..|cs| - 1], cs[|cs| - 1].key)
    ensures !Survives(t, cs, cs[|cs| - 1].key)
  {
    SurvivedSoFar(t, cs);
    var c :| c in cs && !Survives(t, cs, c.key);
    if c.key != cs[|cs| - 1].key {
      OthersSurviveLast(t, cs, c);
    }
  }

  lemma {:induction false} StrangersPass(r: Row, cs: seq<Candidate>)
    requires forall c :: c in cs ==> c.key != r.key
    ensures Walk(r, cs) == Some(r)
  {
    if cs != [] {
      var n := |cs| - 1;
      assert forall c :: c in cs[..n] ==> c in cs;
      StrangersPass(r, cs[..n]);
    }
  }

  // A batch over keys that all have an active row adds no row if and only if every such row
  // survives its walk.
  lemma AddsNoRowIff(t: Table, cs: seq<Candidate>, now: int)
    requires HasActive(t, cs)
    ensures |SavedAll(t, cs, now).rows| == |t.rows| <==> AllSurvive(t, cs)
  {
    if AllSurvive(t, cs) {
      SurvivorsAddNoRow(t, cs, now);
    } else {
      CasualtyAddsRow(t, cs, now);
    }
  }

  // ---------- nothing but stamps ----------

  lemma {:induction false} IdsFollowRows(t: Table, cs: seq<Candidate>, now: int)
    ensures SavedAll(t, cs, now).nextId - |SavedAll(t, cs, now).rows| == t.nextId - |t.rows|
  {
    if cs != [] {
      IdsFollowRows(t, cs[..|cs| - 1], now);
    }
  }

  lemma SaveSpares(t: Table, c: Candidate, now: int, j: nat)
    requires j < |t.rows| && FindActive(t.rows, c.key) != Some(j)
    ensures j < |Saved(t, c, now).rows| && Saved(t, c, now).rows[j] == t.rows[j]
  {
  }

  // Rows other than the active ones of the batch's keys are not touched.
  lemma {:induction false} BystandersStay(t: Table, cs: seq<Candidate>, now: int, j: nat)
    requires AllSurvive(t, cs) && j < |t.rows|
    requires forall c :: c in cs ==> FindActive(t.rows, c.key) != Some(j)
    ensures j < |SavedAll(t, cs, now).rows| && SavedAll(t, cs, now).rows[j] == t.rows[j]
  {
    if cs != [] {
      var n := |cs| - 1;
      SurvivesPrefix(t, cs);
      assert forall c :: c in cs[..n] ==> c in cs;
      BystandersStay(t, cs[..n], now, j);
      assert cs[n] in cs && Survives(t, cs[..n], cs[n].key);
      BatchWalks(t, cs[..n], now, cs[n].key);
      SaveSpares(SavedAll(t, cs[..n], now), cs[n], now, j);
    }
  }

  lemma ReturnersRestamp(t: Table, cs: seq<Candidate>, now: int)
    requires AllReturn(t, cs)
    ensures SameTable(t, SavedAll(t, cs, now))
  {
    var after := SavedAll(t, cs, now);
    SurvivorsAddNoRow(t, cs, now);
    IdsFollowRows(t, cs, now);
    forall j | 0 <= j < |t.rows|
      ensures SameButStamp(t.rows[j], after.rows[j])
    {
      if c :| c in cs && FindActive(t.rows, c.key) == Some(j) {
        assert Returns(t, cs, c.key);
        BatchWalks(t, cs, now, c.key);
      } else {
        BystandersStay(t, cs, now, j);
      }
    }
  }

  // The exact condition under which a batch over keys with an active row changes nothing but
  // update stamps.
  lemma OnlyRestampsIff(t: Table, cs: seq<Candidate>, now: int)
    requires HasActive(t, cs)
    ensures SameTable(t, SavedAll(t, cs, now)) <==> AllReturn(t, cs)
  {
    if AllReturn(t, cs) {
      ReturnersRestamp(t, cs, now);
    }
    if SameTable(t, SavedAll(t, cs, now)) {
      AddsNoRowIff(t, cs, now);
      forall c | c in cs
        ensures Returns(t, cs, c.key)
      {
        assert Survives(t, cs, c.key);
        BatchWalks(t, cs, now, c.key);
      }
    }
  }

  // ---------- replay ----------

  lemma KeyKeepsActive(t: Table, c: Candidate, now: int, key: Key)
    requires key == c.key || FindActive(t.rows, key).Some?
    ensures FindActive(Saved(t, c, now).rows, key).Some?
  {
    if key == c.key {
      SaveOutcome(t, c, now);
    } else {
      OtherKeyUntouched(t, c, now, key);
    }
  }

  // The key has an active row after the first m candidates.
  predicate IsActiveAfter(t: Table, cs: seq<Candidate>, now: int, m: nat, key: Key)
    requires m <= |cs|
  {
    FindActive(SavedAll(t, cs[..m], now).rows, key).Some?
  }

  lemma NextKeepsActive(t: Table, cs: seq<Candidate>, now: int, m: nat, key: Key)
    requires m < |cs| && (key == cs[m].key || IsActiveAfter(t, cs, now, m, key))
    ensures IsActiveAfter(t, cs, now, m + 1, key)
  {
    SavedAllNext(t, cs, now, m);
    KeyKeepsActive(SavedAll(t, cs[..m], now), cs[m], now, key);
  }

  lemma {:induction false} SavedKeyIsActive(t: Table, cs: seq<Candidate>, now: int, k: nat, m: nat)
    requires k < m <= |cs|
    ensures IsActiveAfter(t, cs, now, m, cs[k].key)
    decreases m
  {
    if k < m - 1 {
      SavedKeyIsActive(t, cs, now, k, m - 1);
    }
    NextKeepsActive(t, cs, now, m - 1, cs[k].key);
  }

  lemma BatchLeavesActive(t: Table, cs: seq<Candidate>, now: int)
    ensures HasActive(SavedAll(t, cs, now), cs)
  {
    forall c | c in cs
      ensures FindActive(SavedAll(t, cs, now).rows, c.key).Some?
    {
      var k :| 0 <= k < |cs| && cs[k] == c;
      SavedKeyIsActive(t, cs, now, k, |cs|);
      assert cs[..|cs|] == cs;
    }
  }

  // Any batch, whatever its keys: replaying it adds no row exactly when every active row it left
  // survives it, and changes nothing but stamps exactly when every such row returns.
  lemma ReplayIff(t: Table, cs: seq<Candidate>, now: int, later: int)
    ensures var once := SavedAll(t, cs, now);
      && (|SavedAll(once, cs, later).rows| == |once.rows| <==> AllSurvive(once, cs))
      && (SameTable(once, SavedAll(once, cs, later)) <==> AllReturn(once, cs))
  {
    var once := SavedAll(t, cs, now);
    BatchLeavesActive(t, cs, now);
    AddsNoRowIff(once, cs, later);
    OnlyRestampsIff(once, cs, later);
  }

  // ---------- redelivery after other batches ----------

  lemma CommittedStaysActive(before: Table, tx: Transaction, key: Key)
    requires FindActive(before.rows, key).Some?
    ensures FindActive(AfterOne(before, tx).rows, key).Some?
  {
    if tx.Committed? {
      BatchKeepsActive(before, tx.candidates, tx.now, key);
    }
  }

  lemma {:induction false} BatchKeepsActive(t: Table, cs: seq<Candidate>, now: int, key: Key)
    requires FindActive(t.rows, key).Some?
    ensures FindActive(SavedAll(t, cs, now).rows, key).Some?
  {
    if cs != [] {
      var n := |cs| - 1;
      BatchKeepsActive(t, cs[..n], now, key);
      KeyKeepsActive(SavedAll(t, cs[..n], now), cs[n], now, key);
    }
  }

  lemma {:induction false} CommittedKeyIsActive(history: seq<Transaction>, k: nat, c: Candidate)
    requires k < |history| && history[k].Committed? && c in history[k].candidates
    ensures FindActive(AfterAll(history).rows, c.key).Some?
  {
    var n := |history| - 1;
    var before := AfterAll(history[..n]);
    if k == n {
      BatchLeavesActive(before, history[n].candidates, history[n].now);
    } else {
      CommittedKeyIsActive(history[..n], k, c);
      CommittedStaysActive(before, history[n], c.key);
    }
  }

  // A batch of the history comes once more, whatever was saved in between: both conditions hold
  // for the store as it is then.
  lemma RedeliveryIff(history: seq<Transaction>, k: nat, later: int)
    requires k < |history| && history[k].Committed?
    ensures var t, cs := AfterAll(history), history[k].candidates;
      && (|SavedAll(t, cs, later).rows| == |t.rows| <==> AllSurvive(t, cs))
      && (SameTable(t, SavedAll(t, cs, later)) <==> AllReturn(t, cs))
  {
    var t, cs := AfterAll(history), history[k].candidates;
    forall c | c in cs
      ensures FindActive(t.rows, c.key).Some?
    {
      CommittedKeyIsActive(history, k, c);
    }
    AddsNoRowIff(t, cs, later);
    OnlyRestampsIff(t, cs, later);
  }

  // When a stale candidate comes back: it takes over a row with other content exactly when it has
  // no older turn or is nearly as confident.
  lemma StaleTakesOverIff(t: Table, c: Candidate, now: int)
    requires FindActive(t.rows, c.key).Some?
    requires !SameContent(t.rows[FindActive(t.rows, c.key).value], c)
    ensures var row := t.rows[FindActive(t.rows, c.key).value];
      IsOnTop(Saved(t, c, now), c) <==>
        || (c.sourceTurnId.Some? && (row.sourceTurnId.None? || c.sourceTurnId.value >= row.sourceTurnId.value))
        || c.confidence + 0.05 >= row.confidence
  {
    SaveOutcome(t, c, now);
  }

  // A memory and its correction of a later turn: a late second delivery of the memory undoes the
  // correction exactly when it is nearly as confident.
  lemma RedeliveryUndoesIff(t: Table, c: Candidate, d: Candidate, now: int, mid: int, later: int)
    requires c.key == d.key && Normalized(c.content) != Normalized(d.content)
    requires c.sourceTurnId.Some? && d.sourceTurnId.Some? && c.sourceTurnId.value < d.sourceTurnId.value
    requires FindActive(t.rows, c.key).None?
    ensures var corrected := Saved(Saved(t, c, now), d, mid);
      && IsOnTop(corrected, d)
      && (IsOnTop(Saved(corrected, c, later), c) <==> c.confidence + 0.05 >= d.confidence)
  {
    var one := Saved(t, c, now);
    var corrected := Saved(one, d, mid);
    SaveOutcome(t, c, now);
    CorrectionIsNew(one, d, mid);
    StaleTakesOverIff(corrected, c, later);
  }

  lemma CorrectionIsNew(t: Table, d: Candidate, now: int)
    requires FindActive(t.rows, d.key).Some? && d.sourceTurnId.Some?
    requires var row := t.rows[FindActive(t.rows, d.key).value];
      !SameContent(row, d) && NewerTurn(row.sourceTurnId, d.sourceTurnId)
    ensures IsOnTop(Saved(t, d, now), d)
    ensures var after := Saved(t, d, now);
      after.rows[FindActive(after.rows, d.key).value] == NewRow(t.nextId, d, now)
  {
  }

  // ---------- two contents for one key ----------

  // Two candidates of one turn with the same key and different contents.
  predicate Rivals(a: Candidate, b: Candidate) {
    && a.key == b.key && Normalized(a.content) != Normalized(b.content)
    && a.sourceTurnId == b.sourceTurnId && a.sourceTurnId.Some?
  }

  // Whatever is stored, a batch of two rivals grows on replay exactly when the second one made it
  // into the active row: then each replay supersedes afresh.
  lemma RivalsGrowIff(t: Table, a: Candidate, b: Candidate, now: int, later: int)
    requires Rivals(a, b)
    ensures var once := SavedAll(t, [a, b], now);
      && FindActive(once.rows, b.key).Some?
      && (|SavedAll(once, [a, b], later).rows| > |once.rows| <==>
          SameContent(once.rows[FindActive(once.rows, b.key).value], b))
  {
    var once := SavedAll(t, [a, b], now);
    SavedPair(t, a, b, now);
    RivalsWalk(t, a, b, now);
    ReplayIff(t, [a, b], now, later);
    BatchEvolves(once, [a, b], later);
    assert AllSurvive(once, [a, b]) <==> Survives(once, [a, b], b.key) by {
      assert b in [a, b];
    }
  }

  lemma RivalsWalk(t: Table, a: Candidate, b: Candidate, now: int)
    requires Rivals(a, b)
    ensures var once := Saved(Saved(t, a, now), b, now);
      var i := FindActive(once.rows, b.key);
      i.Some? && (Walk(once.rows[i.value], [a, b]).Some? <==> !SameContent(once.rows[i.value], b))
  {
    var one := Saved(t, a, now);
    var once := Saved(one, b, now);
    SaveOutcome(one, b, now);
    TurnOfSaved(one, b, now);
    var r := once.rows[FindActive(once.rows, b.key).value];
    WalkOfTwo(r, a, b);
    if !SameContent(r, b) {
      assert once == one;
      SaveOutcome(t, a, now);
      TurnOfSaved(t, a, now);
    }
  }

  lemma WalkOfTwo(r: Row, a: Candidate, b: Candidate)
    ensures Walk(r, [a, b]) == if Meet(r, a).None? then None else Meet(Meet(r, a).value, b)
  {
    assert [a, b][..1] == [a] && [a][..0] == [];
    assert Walk(r, [a]) == Meet(r, a);
  }

  // A row that says what a candidate with a turn says has that candidate's turn after its save.
  lemma TurnOfSaved(t: Table, c: Candidate, now: int)
    requires c.sourceTurnId.Some?
    ensures var after := Saved(t, c, now);
      var i := FindActive(after.rows, c.key);
      i.Some? && (SameContent(after.rows[i.value], c) ==> after.rows[i.value].sourceTurnId == c.sourceTurnId)
  {
    SaveOutcome(t, c, now);
    var found := FindActive(t.rows, c.key);
    if found.Some? && SameContent(t.rows[found.value], c) {
      FindActiveAfterUpdate(t.rows, found.value, MergedRow(t.rows[found.value], c, now), c.key);
    }
  }

  // The active row of the candidate's key says what the candidate says and has its turn.
  predicate IsOnTop(t: Table, c: Candidate) {
    var i := FindActive(t.rows, c.key);
    && i.Some? && SameContent(t.rows[i.value], c) && t.rows[i.value].sourceTurnId == c.sourceTurnId
  }

  lemma RivalTakesOver(t: Table, a: Candidate, b: Candidate, now: int)
    requires IsOnTop(t, a) && Rivals(a, b)
    ensures IsOnTop(Saved(t, b, now), b) && |Saved(t, b, now).rows| == |t.rows| + 1
  {
    SaveOutcome(t, b, now);
  }

  // On a key that is new to the store, two rivals take turns for ever: every application of the
  // batch adds two rows.
  lemma RivalsOnNewKeyGrow(t: Table, a: Candidate, b: Candidate, now: int, later: int)
    requires Rivals(a, b) && FindActive(t.rows, b.key).None?
    ensures var once := SavedAll(t, [a, b], now);
      |once.rows| == |t.rows| + 2 && |SavedAll(once, [a, b], later).rows| == |t.rows| + 4
  {
    var one := Saved(t, a, now);
    var once := SavedAll(t, [a, b], now);
    var again := Saved(once, a, later);
    SavedPair(t, a, b, now);
    SavedPair(once, a, b, later);
    RivalTakesOver(one, a, b, now);
    RivalTakesOver(once, b, a, later);
    RivalTakesOver(again, a, b, later);
  }

  lemma SavedPair(t: Table, a: Candidate, b: Candidate, now: int)
    ensures SavedAll(t, [a, b], now) == Saved(Saved(t, a, now), b, now)
  {
    assert [a, b][..1] == [a] && [a][..0] == [];
    assert SavedAll(t, [a], now) == Saved(SavedAll(t, [], now), a, now);
  }

  function Plain(what: string): Candidate {
    Candidate(Key(User, "k", None, None), Preference, "s", Content(what, None, None, None),
              Provenance(None, None, None, None, None, None, None), 0.5, Some(1))
  }

  lemma NormalizedWord(w: string)
    requires IsWord(w)
    ensures NormalizeField(w) == AsciiLower(w)
  {
    assert Trim(w) == w by {
      assert !IsWhitespace(w[0]) && !IsWhitespace(w[|w| - 1]);
    }
    assert SplitWhitespace(w) == [w] by {
      WordLengthAtSpace(w, "");
      assert w + "" == w;
    }
  }

  // A concrete pair: an empty store, two one-word contents of one turn.
  lemma ReplayWithRepeatedKeyGrows(now: int, later: int)
    ensures var cs := [Plain("a"), Plain("b")];
      var once := SavedAll(Table([], 1), cs, now);
      |once.rows| == 2 && |SavedAll(once, cs, later).rows| == 4
  {
    NormalizedWord("a");
    NormalizedWord("b");
    assert AsciiLower("a")[0] == 'a' && AsciiLower("b")[0] == 'b';
    RivalsOnNewKeyGrow(Table([], 1), Plain("a"), Plain("b"), now, later);
  }
}
