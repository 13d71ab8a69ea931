/** Splitting a long message into chunks (src/channel/telegram.rs): the words of every chunk are
    consecutive, and no other way of cutting the text by the same rule needs fewer chunks. */
module ChunkText {
  import opened Text

  // The words, each followed by a space: what the loop accumulates.
  function Spaced(ws: seq<string>): string {
    if ws == [] then "" else Spaced(ws[..|ws| - 1]) + ws[|ws| - 1] + " "
  }

  function Cost(ws: seq<string>): nat {
    if ws == [] then 0 else Cost(ws[..|ws| - 1]) + ByteLen(ws[|ws| - 1]) + 1
  }

  // A chunk is one word of any size, or words which with a space after each stay within the limit.
  predicate Fits(ws: seq<string>, maxChars: nat) {
    |ws| == 1 || (ws != [] && Cost(ws) <= maxChars)
  }

  function Flatten<T>(groups: seq<seq<T>>): seq<T> {
    if groups == [] then [] else groups[0] + Flatten(groups[1..])
  }

  // A way to cut the words, in order, into chunks.
  predicate IsCut(groups: seq<seq<string>>, words: seq<string>, maxChars: nat) {
    Flatten(groups) == words && forall g :: g in groups ==> Fits(g, maxChars)
  }

  // The cut that the loop makes when `open` is the chunk being filled.
  function Packed(open: seq<string>, rest: seq<string>, maxChars: nat): seq<seq<string>>
    decreases rest
  {
    if rest == [] then (if open == [] then [] else [open])
    else if open != [] && Cost(open) + ByteLen(rest[0]) + 1 > maxChars then
      [open] + Packed([rest[0]], rest[1..], maxChars)
    else
      Packed(open + [rest[0]], rest[1..], maxChars)
  }

  function JoinAll(groups: seq<seq<string>>): (chunks: seq<string>) {
    seq(|groups|, i requires 0 <= i < |groups| => JoinWords(groups[i]))
  }

  function Words(chunks: seq<string>): seq<seq<string>> {
    seq(|chunks|, i requires 0 <= i < |chunks| => SplitWhitespace(chunks[i]))
  }

  function Chunks(text: string, maxChars: nat): seq<string> {
    if ByteLen(text) <= maxChars then [text] else JoinAll(Packed([], SplitWhitespace(text), maxChars))
  }

  // chunk_text
  method Chunk(text: string, maxChars: nat) returns (chunks: seq<string>)
    ensures chunks == Chunks(text, maxChars)
    ensures ByteLen(text) <= maxChars ==> chunks == [text]
    ensures ByteLen(text) > maxChars ==> AreSpacedWords(chunks, SplitWhitespace(text))
  {
    ChunksMeaning(text, maxChars);
    if ByteLen(text) <= maxChars {
      return [text];
    }
    chunks := [];
    var current := "";
    var words := SplitWhitespace(text);
    ghost var groups: seq<seq<string>>, open: seq<string> := [], [];
    for k := 0 to |words|
      invariant InProgress(words, maxChars, chunks, current, groups, open, words[k..])
    {
      var word := words[k];
      assert words[k..][0] == word && words[k..][1..] == words[k + 1..];
      SpacedFacts(open);
      if ByteLen(current) + ByteLen(word) + 1 > maxChars && current != [] {
        CutStep(words, maxChars, chunks, groups, open, words[k..]);
        chunks := chunks + [Trim(current)];
        current := "";
        groups, open := groups + [open], [];
      }
      AddStep(words, maxChars, chunks, current, groups, open, words[k..]);
      current := current + word + " ";
      open := open + [word];
    }
    SpacedFacts(open);
    if Trim(current) != "" {
      chunks := chunks + [Trim(current)];
      groups := groups + [open];
    }
    assert groups == Packed([], words, maxChars);
  }

  // The loop's state: `groups` are finished, `open` is being filled, `rest` is to come.
  ghost predicate InProgress(words: seq<string>, maxChars: nat, chunks: seq<string>, current: string,
                             groups: seq<seq<string>>, open: seq<string>, rest: seq<string>) {
    && chunks == JoinAll(groups) && current == Spaced(open)
    && (forall w :: w in open ==> IsWord(w))
    && groups + Packed(open, rest, maxChars) == Packed([], words, maxChars)
  }

  lemma PackedAtCut(open: seq<string>, rest: seq<string>, maxChars: nat)
    requires rest != [] && open != [] && Cost(open) + ByteLen(rest[0]) + 1 > maxChars
    ensures Packed(open, rest, maxChars) == [open] + Packed([], rest, maxChars)
  {
    assert [] + [rest[0]] == [rest[0]];
  }

  lemma JoinAllNext(groups: seq<seq<string>>, open: seq<string>)
    ensures JoinAll(groups + [open]) == JoinAll(groups) + [JoinWords(open)]
  {
  }

  lemma MoveOver(groups: seq<seq<string>>, open: seq<string>, left: seq<seq<string>>, whole: seq<seq<string>>)
    requires groups + ([open] + left) == whole
    ensures groups + [open] + left == whole
  {
    assert groups + [open] + left == groups + ([open] + left);
  }

  lemma CutStep(words: seq<string>, maxChars: nat, chunks: seq<string>, groups: seq<seq<string>>,
                open: seq<string>, rest: seq<string>)
    requires InProgress(words, maxChars, chunks, Spaced(open), groups, open, rest)
    requires rest != [] && open != [] && Cost(open) + ByteLen(rest[0]) + 1 > maxChars
    ensures InProgress(words, maxChars, chunks + [Trim(Spaced(open))], "", groups + [open], [], rest)
  {
    SpacedFacts(open);
    JoinAllNext(groups, open);
    PackedAtCut(open, rest, maxChars);
    MoveOver(groups, open, Packed([], rest, maxChars), Packed([], words, maxChars));
  }

  lemma AddStep(words: seq<string>, maxChars: nat, chunks: seq<string>, current: string,
                groups: seq<seq<string>>, open: seq<string>, rest: seq<string>)
    requires InProgress(words, maxChars, chunks, current, groups, open, rest)
    requires rest != [] && IsWord(rest[0]) && (open == [] || Cost(open) + ByteLen(rest[0]) + 1 <= maxChars)
    ensures InProgress(words, maxChars, chunks, current + rest[0] + " ", groups, open + [rest[0]], rest[1..])
  {
    assert (open + [rest[0]])[..|open|] == open;
  }

  // ---------- what the accumulated text is ----------

  lemma {:induction false} SpacedIsJoined(ws: seq<string>)
    requires ws != []
    ensures Spaced(ws) == JoinWords(ws) + " "
  {
    if |ws| > 1 {
      var front := ws[..|ws| - 1];
      SpacedIsJoined(front);
      JoinWordsLast(front, ws[|ws| - 1]);
      assert ws == front + [ws[|ws| - 1]];
    }
  }

  lemma {:induction false} JoinedEnds(ws: seq<string>)
    requires ws != [] && forall w :: w in ws ==> IsWord(w)
    ensures JoinWords(ws) != "" && !IsWhitespace(JoinWords(ws)[0]) && !IsWhitespace(JoinWords(ws)[|JoinWords(ws)| - 1])
  {
    assert IsWord(ws[0]);
    if |ws| > 1 {
      JoinedEnds(ws[1..]);
    }
  }

  lemma {:induction false} SpacedLength(ws: seq<string>)
    ensures ByteLen(Spaced(ws)) == Cost(ws)
  {
    if ws != [] {
      var front, w := ws[..|ws| - 1], ws[|ws| - 1];
      SpacedLength(front);
      ByteLenConcat(Spaced(front) + w, " ");
      ByteLenConcat(Spaced(front), w);
      assert ByteLen(" ") == 1;
    }
  }

  lemma SpacedFacts(ws: seq<string>)
    requires forall w :: w in ws ==> IsWord(w)
    ensures ByteLen(Spaced(ws)) == Cost(ws)
    ensures Spaced(ws) == "" <==> ws == []
    ensures Trim(Spaced(ws)) == JoinWords(ws)
    ensures JoinWords(ws) == "" <==> ws == []
  {
    SpacedLength(ws);
    if ws != [] {
      var joined := JoinWords(ws);
      SpacedIsJoined(ws);
      JoinedEnds(ws);
      var s := joined + " ";
      assert s[0] == joined[0] && s[..|s| - 1] == joined;
      assert TrimStart(s, IsWhitespace) == s;
      assert TrimEnd(joined, IsWhitespace) == joined;
      assert TrimEnd(s, IsWhitespace) == TrimEnd(s[..|s| - 1], IsWhitespace);
    }
  }

  // ---------- the cut ----------

  lemma CostOfNext(open: seq<string>, w: string)
    ensures Cost(open + [w]) == Cost(open) + ByteLen(w) + 1
  {
    assert (open + [w])[..|open|] == open;
  }

  lemma {:induction false} PackedIsCut(open: seq<string>, rest: seq<string>, maxChars: nat)
    requires open == [] || Fits(open, maxChars)
    ensures IsCut(Packed(open, rest, maxChars), open + rest, maxChars)
    decreases rest
  {
    if rest != [] {
      var w := rest[0];
      CostOfNext(open, w);
      assert open + [w] + rest[1..] == open + rest;
      assert [w] + rest[1..] == rest;
      if open != [] && Cost(open) + ByteLen(w) + 1 > maxChars {
        PackedIsCut([w], rest[1..], maxChars);
        var tail := Packed([w], rest[1..], maxChars);
        assert ([open] + tail)[1..] == tail;
      } else {
        PackedIsCut(open + [w], rest[1..], maxChars);
      }
    } else if open != [] {
      assert [open][1..] == [];
      assert open + rest == open;
    }
  }

  lemma {:induction false} CostOfPart(a: seq<string>, b: seq<string>, c: seq<string>)
    ensures Cost(b) <= Cost(a + b + c)
  {
    if c != [] {
      var front := c[..|c| - 1];
      CostOfPart(a, b, front);
      CostOfNext(a + b + front, c[|c| - 1]);
      assert a + b + c == a + b + front + [c[|c| - 1]];
    } else if b != [] {
      var front := b[..|b| - 1];
      CostOfPart(a, front, []);
      CostOfNext(a + front, b[|b| - 1]);
      assert a + front + [] == a + front;
      assert a + b + c == a + front + [b[|b| - 1]];
    }
  }

  lemma FlattenNonEmpty(groups: seq<seq<string>>)
    requires Flatten(groups) != []
    ensures groups != []
  {
  }

  // Every cut of the same words, even with more words in front, has at least as many chunks.
  lemma {:induction false} PackedIsSmallest(before: seq<string>, open: seq<string>, rest: seq<string>, maxChars: nat,
                                            other: seq<seq<string>>)
    requires IsCut(other, before + open + rest, maxChars)
    ensures |Packed(open, rest, maxChars)| <= |other|
    decreases rest
  {
    if rest == [] {
      if open != [] {
        FlattenNonEmpty(other);
      }
    } else {
      var w := rest[0];
      assert before + open + rest == before + (open + [w]) + rest[1..];
      if open != [] && Cost(open) + ByteLen(w) + 1 > maxChars {
        FirstChunkStopsShort(before, open, rest, maxChars, other);
        var head := other[0];
        var left := (before + open)[|head|..];
        assert before + open + rest == head + Flatten(other[1..]);
        assert Flatten(other[1..]) == (before + open + rest)[|head|..] == left + [w] + rest[1..];
        PackedIsSmallest(left, [w], rest[1..], maxChars, other[1..]);
      } else {
        PackedIsSmallest(before, open + [w], rest[1..], maxChars, other);
      }
    }
  }

  lemma OverflowNeverFits(before: seq<string>, open: seq<string>, w: string, tail: seq<string>, maxChars: nat)
    requires open != [] && Cost(open) + ByteLen(w) + 1 > maxChars
    ensures !Fits(before + (open + [w]) + tail, maxChars)
  {
    CostOfNext(open, w);
    CostOfPart(before, open + [w], tail);
  }

  // When the next word overflows the open chunk, no first chunk reaches past that word.
  lemma FirstChunkStopsShort(before: seq<string>, open: seq<string>, rest: seq<string>, maxChars: nat,
                             other: seq<seq<string>>)
    requires IsCut(other, before + open + rest, maxChars)
    requires open != [] && rest != [] && Cost(open) + ByteLen(rest[0]) + 1 > maxChars
    ensures other != [] && |other[0]| <= |before| + |open|
  {
    FlattenNonEmpty(other);
    var head, n := other[0], |before| + |open|;
    assert Fits(head, maxChars);
    forall tail | head == before + (open + [rest[0]]) + tail
      ensures false
    {
      OverflowNeverFits(before, open, rest[0], tail, maxChars);
    }
    if |head| > n {
      PrefixPast(before + open, rest, head, Flatten(other[1..]));
    }
    assert before + open + [rest[0]] == before + (open + [rest[0]]);
  }

  lemma PrefixPast(known: seq<string>, rest: seq<string>, head: seq<string>, others: seq<string>)
    requires head + others == known + rest && |head| > |known|
    ensures head == known + [rest[0]] + head[|known| + 1..]
  {
    assert forall i :: 0 <= i < |head| ==> head[i] == (known + rest)[i];
  }

  // ---------- the results ----------

  lemma {:induction false} FlattenMembers<T>(groups: seq<seq<T>>, g: seq<T>)
    requires g in groups
    ensures forall x :: x in g ==> x in Flatten(groups)
  {
    if g != groups[0] {
      FlattenMembers(groups[1..], g);
    }
  }

  // Splitting the chunks of a long text gives back the groups of words.
  lemma ChunksAreGroups(text: string, maxChars: nat)
    requires ByteLen(text) > maxChars
    ensures Words(Chunks(text, maxChars)) == Packed([], SplitWhitespace(text), maxChars)
  {
    var words := SplitWhitespace(text);
    var groups := Packed([], words, maxChars);
    PackedIsCut([], words, maxChars);
    assert [] + words == words;
    forall i | 0 <= i < |groups|
      ensures SplitWhitespace(JoinWords(groups[i])) == groups[i]
    {
      FlattenMembers(groups, groups[i]);
      SplitJoin(groups[i]);
    }
  }

  // No word is lost, split, repeated or moved.
  lemma WordsArePreserved(text: string, maxChars: nat)
    ensures Flatten(Words(Chunks(text, maxChars))) == SplitWhitespace(text)
  {
    if ByteLen(text) <= maxChars {
      var split := Words([text]);
      assert split[1..] == [];
      assert Flatten(split) == split[0];
    } else {
      ChunksAreGroups(text, maxChars);
      PackedIsCut([], SplitWhitespace(text), maxChars);
      assert [] + SplitWhitespace(text) == SplitWhitespace(text);
    }
  }

  // Every chunk is its own words joined by single spaces, and together they have exactly these words.
  predicate AreSpacedWords(chunks: seq<string>, words: seq<string>) {
    && (forall i :: 0 <= i < |chunks| ==> chunks[i] == JoinWords(SplitWhitespace(chunks[i])))
    && Flatten(Words(chunks)) == words
  }

  // A short text is left as it is; a longer one is told by its words.
  lemma ChunksMeaning(text: string, maxChars: nat)
    ensures ByteLen(text) <= maxChars ==> Chunks(text, maxChars) == [text]
    ensures ByteLen(text) > maxChars ==> AreSpacedWords(Chunks(text, maxChars), SplitWhitespace(text))
  {
    if ByteLen(text) > maxChars {
      var chunks := Chunks(text, maxChars);
      WordsArePreserved(text, maxChars);
      ChunksAreGroups(text, maxChars);
      forall i | 0 <= i < |chunks|
        ensures chunks[i] == JoinWords(SplitWhitespace(chunks[i]))
      {
        assert Words(chunks)[i] == SplitWhitespace(chunks[i]);
      }
    }
  }

  // A chunk of a long text that reaches the limit is one oversize word.
  lemma ChunkSizes(text: string, maxChars: nat, i: nat)
    requires ByteLen(text) > maxChars && i < |Chunks(text, maxChars)|
    ensures var chunk := Chunks(text, maxChars)[i];
      SplitWhitespace(chunk) != [] && (ByteLen(chunk) < maxChars || SplitWhitespace(chunk) == [chunk])
  {
    var words := SplitWhitespace(text);
    var groups := Packed([], words, maxChars);
    ChunksAreGroups(text, maxChars);
    PackedIsCut([], words, maxChars);
    assert [] + words == words;
    assert groups[i] in groups && Fits(groups[i], maxChars);
    assert Words(Chunks(text, maxChars))[i] == groups[i];
    FlattenMembers(groups, groups[i]);
    SpacedFacts(groups[i]);
    SpacedIsJoined(groups[i]);
    ByteLenConcat(JoinWords(groups[i]), " ");
    assert ByteLen(" ") == 1;
    if |groups[i]| == 1 {
      assert groups[i] == [groups[i][0]];
    }
  }

  // No cut of the words by the same rule has fewer chunks.
  lemma FewestChunks(text: string, maxChars: nat, other: seq<seq<string>>)
    requires IsCut(other, SplitWhitespace(text), maxChars)
    requires ByteLen(text) > maxChars
    ensures |Chunks(text, maxChars)| <= |other|
    ensures IsCut(Words(Chunks(text, maxChars)), SplitWhitespace(text), maxChars)
  {
    var words := SplitWhitespace(text);
    assert [] + [] + words == words && [] + words == words;
    PackedIsSmallest([], [], words, maxChars, other);
    ChunksAreGroups(text, maxChars);
    PackedIsCut([], words, maxChars);
  }
}
