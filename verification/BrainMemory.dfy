/** The versioned brain memory: src/memory/brain.rs and the merge-or-supersede statements of
    src/storage/postgres.rs. Confidence is a real number, time an abstract stamp, and
    transactions run one after another. */
module BrainMemory {
  import opened Options
  import opened Text

  datatype Scope = User | Conversation

  datatype Kind = Preference | Goal | Constraint | Decision | Lesson | SourceLocation | ProfileFact

  datatype Provenance = Provenance(
    channel: Option<string>,
    userId: Option<string>,
    conversationId: Option<int>,
    sourceTurnId: Option<int>,
    traceId: Option<string>,
    toolName: Option<string>,
    url: Option<string>
  ) {
    // Field by field, the newer value wins where it is present.
    function Merge(newer: Provenance): Provenance {
      Provenance(newer.channel.Or(channel), newer.userId.Or(userId), newer.conversationId.Or(conversationId),
                 newer.sourceTurnId.Or(sourceTurnId), newer.traceId.Or(traceId), newer.toolName.Or(toolName),
                 newer.url.Or(url))
    }
  }

  datatype Content = Content(
    what: string,
    why: Option<string>,
    whereContext: Option<string>,
    learned: Option<string>
  )

  // What identifies a memory; the absence of a user or conversation is part of it.
  datatype Key = Key(scope: Scope, memoryKey: string, userId: Option<string>, conversationId: Option<int>)

  datatype Candidate = Candidate(
    key: Key,
    kind: Kind,
    subject: string,
    content: Content,
    provenance: Provenance,
    confidence: real,
    sourceTurnId: Option<int>
  )

  datatype Row = Row(
    id: nat,
    key: Key,
    kind: Kind,
    subject: string,
    content: Content,
    provenance: Provenance,
    confidence: real,
    active: bool,
    supersededBy: Option<nat>,
    sourceTurnId: Option<int>,
    searchText: string,
    createdAt: int,
    updatedAt: int
  )

  // ---------- contents ----------

  function NormalizeField(s: string): string {
    AsciiLower(JoinWords(SplitWhitespace(Trim(s))))
  }

  function NormalizeOptional(s: Option<string>): string {
    if s.Some? then NormalizeField(s.value) else ""
  }

  function Normalized(c: Content): (string, string, string, string) {
    (NormalizeField(c.what), NormalizeOptional(c.why), NormalizeOptional(c.whereContext), NormalizeOptional(c.learned))
  }

  predicate SameContent(r: Row, c: Candidate) {
    Normalized(r.content) == Normalized(c.content)
  }

  predicate NewerTurn(existing: Option<int>, candidate: Option<int>) {
    candidate.Some? && (existing.Some? ==> candidate.value >= existing.value)
  }

  predicate ShouldSupersede(r: Row, c: Candidate) {
    !SameContent(r, c) && (NewerTurn(r.sourceTurnId, c.sourceTurnId) || c.confidence + 0.05 >= r.confidence)
  }

  function Part(s: Option<string>): seq<string> {
    if s.Some? && Trim(s.value) != "" then [Trim(s.value)] else []
  }

  function SearchText(c: Candidate): string {
    JoinWords([Trim(c.subject), Trim(c.content.what)] + Part(c.content.why) + Part(c.content.whereContext)
              + Part(c.content.learned))
  }

  function MaxReal(a: real, b: real): real {
    if a >= b then a else b
  }

  // ---------- one candidate ----------

  // The newest active row with the key: ORDER BY id DESC LIMIT 1 over rows in id order.
  function FindActive(rows: seq<Row>, key: Key): (i: Option<nat>)
    ensures i.Some? ==> i.value < |rows| && rows[i.value].active && rows[i.value].key == key
    ensures forall j :: 0 <= j < |rows| && rows[j].active && rows[j].key == key ==> i.Some? && j <= i.value
  {
    if rows == [] then None
    else if rows[|rows| - 1].active && rows[|rows| - 1].key == key then Some(|rows| - 1)
    else FindActive(rows[..|rows| - 1], key)
  }

  function NewRow(id: nat, c: Candidate, now: int): Row {
    Row(id, c.key, c.kind, c.subject, c.content, c.provenance, c.confidence, true, None, c.sourceTurnId,
        SearchText(c), now, now)
  }

  function MergedRow(r: Row, c: Candidate, now: int): Row {
    r.(subject := c.subject, content := c.content, provenance := r.provenance.Merge(c.provenance),
       confidence := MaxReal(r.confidence, c.confidence), sourceTurnId := c.sourceTurnId.Or(r.sourceTurnId),
       searchText := SearchText(c), updatedAt := now)
  }

  function SupersededRow(r: Row, successor: nat, now: int): Row {
    r.(active := false, supersededBy := Some(successor), updatedAt := now)
  }

  datatype Table = Table(rows: seq<Row>, nextId: nat)

  function Inserted(t: Table, c: Candidate, now: int): Table {
    Table(t.rows + [NewRow(t.nextId, c, now)], t.nextId + 1)
  }

  function Saved(t: Table, c: Candidate, now: int): Table {
    var found := FindActive(t.rows, c.key);
    if found.None? then Inserted(t, c, now)
    else
      var i := found.value;
      if SameContent(t.rows[i], c) then t.(rows := t.rows[i := MergedRow(t.rows[i], c, now)])
      else if ShouldSupersede(t.rows[i], c) then
        var t' := Inserted(t, c, now);
        t'.(rows := t'.rows[i := SupersededRow(t.rows[i], t.nextId, now)])
      else t
  }

  function SavedAll(t: Table, cs: seq<Candidate>, now: int): Table {
    if cs == [] then t else Saved(SavedAll(t, cs[..|cs| - 1], now), cs[|cs| - 1], now)
  }

  // ---------- what a save means ----------

  // The newer value where it is present, otherwise the older one.
  predicate IsNewest<T(==)>(value: Option<T>, newer: Option<T>, older: Option<T>) {
    if newer.Some? then value == newer else value == older
  }

  predicate KeepsNewest(p: Provenance, newer: Provenance, older: Provenance) {
    && IsNewest(p.channel, newer.channel, older.channel)
    && IsNewest(p.userId, newer.userId, older.userId)
    && IsNewest(p.conversationId, newer.conversationId, older.conversationId)
    && IsNewest(p.sourceTurnId, newer.sourceTurnId, older.sourceTurnId)
    && IsNewest(p.traceId, newer.traceId, older.traceId)
    && IsNewest(p.toolName, newer.toolName, older.toolName)
    && IsNewest(p.url, newer.url, older.url)
  }

  // A further part of the search text: a space and the trimmed text, or nothing when it is blank.
  function Further(s: Option<string>): string {
    if s.None? || Trim(s.value) == "" then "" else " " + Trim(s.value)
  }

  predicate IsSearchText(text: string, c: Candidate) {
    text == Trim(c.subject) + " " + Trim(c.content.what) + Further(c.content.why) + Further(c.content.whereContext)
            + Further(c.content.learned)
  }

  // The candidate's texts, to the letter.
  predicate SaysVerbatim(row: Row, c: Candidate) {
    && row.subject == c.subject && row.content.what == c.content.what && row.content.why == c.content.why
    && row.content.whereContext == c.content.whereContext && row.content.learned == c.content.learned
    && IsSearchText(row.searchText, c)
  }

  predicate IsNewRow(row: Row, id: nat, c: Candidate, now: int) {
    && row.id == id && row.key == c.key && row.kind == c.kind && SaysVerbatim(row, c)
    && row.provenance == c.provenance && row.confidence == c.confidence && row.sourceTurnId == c.sourceTurnId
    && row.active && row.supersededBy == None && row.createdAt == now && row.updatedAt == now
  }

  predicate IsMerge(row: Row, was: Row, c: Candidate, now: int) {
    && row.id == was.id && row.key == was.key && row.kind == was.kind && row.createdAt == was.createdAt
    && row.active == was.active && row.supersededBy == was.supersededBy
    && SaysVerbatim(row, c) && KeepsNewest(row.provenance, c.provenance, was.provenance)
    && row.confidence >= was.confidence && row.confidence >= c.confidence
    && (row.confidence == was.confidence || row.confidence == c.confidence)
    && IsNewest(row.sourceTurnId, c.sourceTurnId, was.sourceTurnId) && row.updatedAt == now
  }

  predicate IsRetired(row: Row, was: Row, successor: nat, now: int) {
    row == was.(active := false, supersededBy := Some(successor), updatedAt := now)
  }

  // The same words in the four fields, an absent one counting as empty.
  predicate SaysTheSame(a: Content, b: Content) {
    && SameWords(a.what, b.what) && SameWords(a.why.GetOr(""), b.why.GetOr(""))
    && SameWords(a.whereContext.GetOr(""), b.whereContext.GetOr(""))
    && SameWords(a.learned.GetOr(""), b.learned.GetOr(""))
  }

  predicate Overrides(c: Candidate, row: Row) {
    || (c.sourceTurnId.Some? && row.sourceTurnId.None?)
    || (c.sourceTurnId.Some? && row.sourceTurnId.Some? && c.sourceTurnId.value >= row.sourceTurnId.value)
    || c.confidence + 0.05 >= row.confidence
  }

  // Row i is the active row of the key, the newest of several.
  predicate IsNewestActive(rows: seq<Row>, key: Key, i: nat) {
    && i < |rows| && rows[i].active && rows[i].key == key
    && forall j :: i < j < |rows| ==> !(rows[j].active && rows[j].key == key)
  }

  predicate HasNoActive(rows: seq<Row>, key: Key) {
    forall j :: 0 <= j < |rows| ==> !(rows[j].active && rows[j].key == key)
  }

  // A row at the end, the others as they were.
  predicate IsAppended(t: Table, after: Table) {
    && |after.rows| == |t.rows| + 1 && after.nextId == t.nextId + 1
  }

  predicate OthersStay(t: Table, after: Table, i: nat) {
    |after.rows| >= |t.rows| && forall j :: 0 <= j < |t.rows| && j != i ==> after.rows[j] == t.rows[j]
  }

  // A candidate for a key without active row is inserted. One that says the same as the active row
  // is merged into it; another one supersedes it where it overrides it, and is dropped otherwise.
  ghost predicate IsSave(t: Table, c: Candidate, now: int, after: Table) {
    && (HasNoActive(t.rows, c.key) ==> IsSaveNew(t, c, now, after))
    && (forall i: nat :: IsNewestActive(t.rows, c.key, i) ==> IsSaveOver(t, c, now, after, i))
  }

  predicate IsSaveNew(t: Table, c: Candidate, now: int, after: Table) {
    IsAppended(t, after) && OthersStay(t, after, |t.rows|) && IsNewRow(after.rows[|t.rows|], t.nextId, c, now)
  }

  predicate IsSaveOver(t: Table, c: Candidate, now: int, after: Table, i: nat)
    requires i < |t.rows|
  {
    if SaysTheSame(t.rows[i].content, c.content) then
      && |after.rows| == |t.rows| && after.nextId == t.nextId && OthersStay(t, after, i)
      && IsMerge(after.rows[i], t.rows[i], c, now)
    else if Overrides(c, t.rows[i]) then
      && IsAppended(t, after) && OthersStay(t, after, i) && IsNewRow(after.rows[|t.rows|], t.nextId, c, now)
      && IsRetired(after.rows[i], t.rows[i], t.nextId, now)
    else
      after == t
  }

  lemma NormalizedSame(a: string, b: string)
    ensures NormalizeField(a) == NormalizeField(b) <==> SameWords(a, b)
  {
    NormalizedSplits(a);
    NormalizedSplits(b);
    LowerWords(a, b);
  }

  // The normal form is the lower-case words joined by single spaces, and gives them back.
  lemma NormalizedSplits(s: string)
    ensures NormalizeField(s) == JoinWords(LowerAll(SplitWhitespace(s)))
    ensures SplitWhitespace(NormalizeField(s)) == LowerAll(SplitWhitespace(s))
  {
    var ws := SplitWhitespace(s);
    SplitTrimmed(s);
    LowerJoined(ws);
    forall w | w in LowerAll(ws)
      ensures IsWord(w)
    {
      var i :| 0 <= i < |ws| && LowerAll(ws)[i] == w;
      LowerIsWord(ws[i]);
    }
    SplitJoin(LowerAll(ws));
  }

  lemma LowerIsWord(w: string)
    requires IsWord(w)
    ensures IsWord(AsciiLower(w))
  {
  }

  lemma NormalizedOptionalSame(a: Option<string>, b: Option<string>)
    ensures NormalizeOptional(a) == NormalizeOptional(b) <==> SameWords(a.GetOr(""), b.GetOr(""))
  {
    NormalizedSame(a.GetOr(""), b.GetOr(""));
  }

  lemma SameContentSays(row: Row, c: Candidate)
    ensures SameContent(row, c) <==> SaysTheSame(row.content, c.content)
  {
    NormalizedSame(row.content.what, c.content.what);
    NormalizedOptionalSame(row.content.why, c.content.why);
    NormalizedOptionalSame(row.content.whereContext, c.content.whereContext);
    NormalizedOptionalSame(row.content.learned, c.content.learned);
  }

  lemma JoinFurther(parts: seq<string>, s: Option<string>)
    requires parts != []
    ensures JoinWords(parts + Part(s)) == JoinWords(parts) + Further(s)
  {
    if s.Some? && Trim(s.value) != "" {
      JoinWordsLast(parts, Trim(s.value));
    } else {
      assert parts + Part(s) == parts;
    }
  }

  lemma SearchTextParts(c: Candidate)
    ensures IsSearchText(SearchText(c), c)
  {
    var first := [Trim(c.subject), Trim(c.content.what)];
    assert first[1..] == [Trim(c.content.what)];
    JoinFurther(first, c.content.why);
    JoinFurther(first + Part(c.content.why), c.content.whereContext);
    JoinFurther(first + Part(c.content.why) + Part(c.content.whereContext), c.content.learned);
  }

  lemma InsertedRow(id: nat, c: Candidate, now: int)
    ensures IsNewRow(NewRow(id, c, now), id, c, now)
  {
    SearchTextParts(c);
  }

  lemma MergedIsMerge(was: Row, c: Candidate, now: int)
    ensures IsMerge(MergedRow(was, c, now), was, c, now)
  {
    SearchTextParts(c);
  }

  lemma SavedOver(t: Table, c: Candidate, now: int, i: nat)
    requires FindActive(t.rows, c.key) == Some(i)
    ensures i < |t.rows| && IsSaveOver(t, c, now, Saved(t, c, now), i)
  {
    SameContentSays(t.rows[i], c);
    MergedIsMerge(t.rows[i], c, now);
    InsertedRow(t.nextId, c, now);
  }

  lemma SavedNew(t: Table, c: Candidate, now: int)
    requires FindActive(t.rows, c.key).None?
    ensures IsSaveNew(t, c, now, Saved(t, c, now))
  {
    InsertedRow(t.nextId, c, now);
  }

  lemma SaveMeaning(t: Table, c: Candidate, now: int)
    ensures IsSave(t, c, now, Saved(t, c, now))
  {
    var found := FindActive(t.rows, c.key);
    if found.None? {
      SavedNew(t, c, now);
    }
    forall i: nat | IsNewestActive(t.rows, c.key, i)
      ensures IsSaveOver(t, c, now, Saved(t, c, now), i)
    {
      assert found == Some(i);
      SavedOver(t, c, now, i);
    }
  }

  lemma SavedAllNext(t: Table, cs: seq<Candidate>, now: int, k: nat)
    requires k < |cs|
    ensures SavedAll(t, cs[..k + 1], now) == Saved(SavedAll(t, cs[..k], now), cs[k], now)
    ensures SavedAll(t, cs[..k + 1], now).nextId >= SavedAll(t, cs[..k], now).nextId
  {
    assert cs[..k + 1][..k] == cs[..k];
  }

  class BrainStore {
    var table: Table

    constructor ()
      ensures table == Table([], 1)
    {
      table := Table([], 1);
    }

    // insert_brain_candidate
    method Insert(c: Candidate, now: int) returns (id: nat)
      modifies this
      ensures table == Inserted(old(table), c, now) && id == old(table).nextId
    {
      id := table.nextId;
      table := Table(table.rows + [NewRow(id, c, now)], id + 1);
    }

    // save_or_merge_brain_candidate
    method SaveOrMerge(c: Candidate, now: int)
      modifies this
      ensures table == Saved(old(table), c, now) && IsSave(old(table), c, now, table)
    {
      SaveMeaning(table, c, now);
      var found := FindActive(table.rows, c.key);
      if found.None? {
        var _ := Insert(c, now);
        return;
      }
      var i := found.value;
      var existing := table.rows[i];
      if SameContent(existing, c) {
        var merged := existing.provenance.Merge(c.provenance);
        var row := existing.(subject := c.subject, content := c.content, provenance := merged,
                             confidence := MaxReal(existing.confidence, c.confidence),
                             sourceTurnId := c.sourceTurnId.Or(existing.sourceTurnId),
                             searchText := SearchText(c), updatedAt := now);
        table := table.(rows := table.rows[i := row]);
        return;
      }
      if ShouldSupersede(existing, c) {
        var newId := Insert(c, now);
        table := table.(rows := table.rows[i := SupersededRow(existing, newId, now)]);
      }
    }

    // save_or_merge_brain_candidates: one transaction. A failing statement or commit undoes the
    // rows of the whole batch, but not the ids drawn from the sequence.
    method SaveBatch(cs: seq<Candidate>, now: int) returns (ok: bool)
      modifies this
      ensures ok ==> table == SavedAll(old(table), cs, now)
      ensures !ok ==> table.rows == old(table).rows && table.nextId >= old(table).nextId
    {
      ghost var before := table;
      var rows := table.rows;
      for k := 0 to |cs|
        invariant table == SavedAll(before, cs[..k], now)
        invariant table.nextId >= before.nextId
      {
        var fails: bool := *;
        if fails {
          table := table.(rows := rows);
          return false;
        }
        SavedAllNext(before, cs, now, k);
        SaveOrMerge(cs[k], now);
      }
      assert cs[..|cs|] == cs;
      ok := *;
      if !ok {
        table := table.(rows := rows);
      }
    }
  }

  // ---------- the invariant ----------

  ghost predicate IdsIncrease(t: Table) {
    && (forall i, j :: 0 <= i < j < |t.rows| ==> t.rows[i].id < t.rows[j].id)
    && (forall i :: 0 <= i < |t.rows| ==> t.rows[i].id < t.nextId)
  }

  // A superseded row names a later row with the same key; an active one names none.
  predicate LinkOk(rows: seq<Row>, i: nat)
    requires i < |rows|
  {
    if rows[i].active then rows[i].supersededBy.None?
    else exists j :: i < j < |rows| && rows[j].key == rows[i].key && rows[i].supersededBy == Some(rows[j].id)
  }

  predicate IsOnlyActive(rows: seq<Row>, key: Key, i: nat) {
    && i < |rows| && rows[i].active && rows[i].key == key
    && forall j :: 0 <= j < |rows| && rows[j].active && rows[j].key == key ==> j == i
  }

  ghost predicate OneActive(rows: seq<Row>, key: Key) {
    exists i :: IsOnlyActive(rows, key, i)
  }

  ghost predicate RowOk(rows: seq<Row>, i: nat)
    requires i < |rows|
  {
    LinkOk(rows, i) && OneActive(rows, rows[i].key)
  }

  ghost predicate StoreInvariant(t: Table) {
    && IdsIncrease(t)
    && forall i :: 0 <= i < |t.rows| ==> RowOk(t.rows, i)
  }
}
