/** The string operations of the Rust standard library that the modelled code uses:
    whitespace splitting, trimming, ASCII lower case, UTF-8 byte length and ordering. */
module Text {
  // The characters with the Unicode property White_Space.
  predicate IsWhitespace(c: char) {
    var n := c as int;
    || 0x09 <= n <= 0x0D || n == 0x20 || n == 0x85 || n == 0xA0 || n == 0x1680
    || 0x2000 <= n <= 0x200A || n == 0x2028 || n == 0x2029 || n == 0x202F
    || n == 0x205F || n == 0x3000
  }

  predicate IsAsciiAlphanumeric(c: char) {
    'a' <= c <= 'z' || 'A' <= c <= 'Z' || '0' <= c <= '9'
  }

  function LowerChar(c: char): char {
    if 'A' <= c <= 'Z' then (c as int + 32) as char else c
  }

  function AsciiLower(s: string): (r: string)
    ensures |r| == |s|
    ensures forall i :: 0 <= i < |s| ==> r[i] == LowerChar(s[i])
  {
    seq(|s|, i requires 0 <= i < |s| => LowerChar(s[i]))
  }

  predicate SameLetter(x: char, y: char) {
    || x == y
    || ('A' <= x <= 'Z' && y as int == x as int + 32)
    || ('A' <= y <= 'Z' && x as int == y as int + 32)
  }

  // Equal up to ASCII case.
  predicate SameUpToCase(a: string, b: string) {
    |a| == |b| && forall k :: 0 <= k < |a| ==> SameLetter(a[k], b[k])
  }

  lemma LowerSameLetter(x: char, y: char)
    ensures LowerChar(x) == LowerChar(y) <==> SameLetter(x, y)
  {
  }

  lemma LowerSame(a: string, b: string)
    ensures AsciiLower(a) == AsciiLower(b) <==> SameUpToCase(a, b)
  {
    forall x, y
      ensures LowerChar(x) == LowerChar(y) <==> SameLetter(x, y)
    {
      LowerSameLetter(x, y);
    }
    if AsciiLower(a) == AsciiLower(b) {
      forall k | 0 <= k < |a|
        ensures SameLetter(a[k], b[k])
      {
        assert AsciiLower(a)[k] == AsciiLower(b)[k];
      }
    }
  }

  // The number of bytes of a character in UTF-8.
  function CharBytes(c: char): nat {
    var n := c as int;
    if n < 0x80 then 1 else if n < 0x800 then 2 else if n < 0x10000 then 3 else 4
  }

  // Rust's `str::len`.
  function ByteLen(s: string): nat {
    if s == [] then 0 else CharBytes(s[0]) + ByteLen(s[1..])
  }

  lemma {:induction false} ByteLenConcat(a: string, b: string)
    ensures ByteLen(a + b) == ByteLen(a) + ByteLen(b)
  {
    if a == [] {
      assert a + b == b;
    } else {
      ByteLenConcat(a[1..], b);
      assert (a + b)[1..] == a[1..] + b;
    }
  }

  // A text has as many bytes as characters exactly when all of them are ASCII, and never fewer.
  lemma {:induction false} ByteLenOfText(s: string)
    ensures |s| <= ByteLen(s) <= 4 * |s|
    ensures ByteLen(s) == |s| <==> forall i :: 0 <= i < |s| ==> s[i] as int < 0x80
  {
    if s != [] {
      ByteLenOfText(s[1..]);
      assert forall i :: 1 <= i < |s| ==> s[i] == s[1..][i - 1];
    }
  }

  function TrimStart(s: string, drop: char -> bool): string {
    if s != [] && drop(s[0]) then TrimStart(s[1..], drop) else s
  }

  function TrimEnd(s: string, drop: char -> bool): string {
    if s != [] && drop(s[|s| - 1]) then TrimEnd(s[..|s| - 1], drop) else s
  }

  function TrimMatches(s: string, drop: char -> bool): string {
    TrimEnd(TrimStart(s, drop), drop)
  }

  function Trim(s: string): string {
    TrimMatches(s, IsWhitespace)
  }

  // A maximal run of non-whitespace characters.
  predicate IsWord(w: string) {
    w != [] && forall i :: 0 <= i < |w| ==> !IsWhitespace(w[i])
  }

  // The length of the longest prefix without whitespace.
  function WordLength(s: string): (n: nat)
    ensures n <= |s|
    ensures forall i :: 0 <= i < n ==> !IsWhitespace(s[i])
    ensures n < |s| ==> IsWhitespace(s[n])
  {
    if s == [] || IsWhitespace(s[0]) then 0 else 1 + WordLength(s[1..])
  }

  // Rust's `split_whitespace().collect()`.
  function SplitWhitespace(s: string): (ws: seq<string>)
    ensures forall w :: w in ws ==> IsWord(w)
  {
    if s == [] then []
    else if IsWhitespace(s[0]) then SplitWhitespace(s[1..])
    else
      var n := WordLength(s);
      [s[..n]] + SplitWhitespace(s[n..])
  }

  // Rust's `join(" ")`.
  function JoinWords(ws: seq<string>): string {
    if ws == [] then "" else if |ws| == 1 then ws[0] else ws[0] + " " + JoinWords(ws[1..])
  }

  lemma {:induction false} JoinWordsLast(ws: seq<string>, w: string)
    requires ws != []
    ensures JoinWords(ws + [w]) == JoinWords(ws) + " " + w
  {
    if |ws| > 1 {
      JoinWordsLast(ws[1..], w);
      assert (ws + [w])[1..] == ws[1..] + [w];
    } else {
      assert (ws + [w])[1..] == [w];
    }
  }

  lemma WordLengthAtSpace(w: string, rest: string)
    requires IsWord(w) && (rest == [] || IsWhitespace(rest[0]))
    ensures WordLength(w + rest) == |w|
  {
    var s := w + rest;
    assert forall i :: 0 <= i < |w| ==> s[i] == w[i];
    assert rest != [] ==> s[|w|] == rest[0];
  }

  // Splitting undoes joining.
  lemma {:induction false} SplitJoin(ws: seq<string>)
    requires forall w :: w in ws ==> IsWord(w)
    ensures SplitWhitespace(JoinWords(ws)) == ws
  {
    if ws != [] {
      var w, rest := ws[0], ws[1..];
      SplitJoin(rest);
      var tail := if rest == [] then "" else " " + JoinWords(rest);
      var s := JoinWords(ws);
      assert s == w + tail;
      WordLengthAtSpace(w, tail);
      assert s[0] == w[0];
      assert s[|w|..] == tail && s[..|w|] == w;
      if rest != [] {
        assert tail[1..] == JoinWords(rest);
      }
    }
  }

  predicate AllWhitespace(s: string) {
    forall i :: 0 <= i < |s| ==> IsWhitespace(s[i])
  }

  lemma {:induction false} TrimStartCuts(s: string) returns (k: nat)
    ensures k <= |s| && TrimStart(s, IsWhitespace) == s[k..] && AllWhitespace(s[..k])
    ensures k < |s| ==> !IsWhitespace(s[k])
  {
    k := 0;
    if s != [] && IsWhitespace(s[0]) {
      var j := TrimStartCuts(s[1..]);
      k := j + 1;
      assert s[..k] == [s[0]] + s[1..][..j];
    }
  }

  lemma {:induction false} TrimEndCuts(s: string) returns (k: nat)
    ensures k <= |s| && TrimEnd(s, IsWhitespace) == s[..k] && AllWhitespace(s[k..])
    ensures k > 0 ==> !IsWhitespace(s[k - 1])
  {
    k := |s|;
    if s != [] && IsWhitespace(s[k - 1]) {
      var front := s[..k - 1];
      k := TrimEndCuts(front);
      assert s[k..] == front[k..] + [s[|s| - 1]];
    }
  }

  // Trimming cuts the whitespace off both ends and nothing else.
  lemma TrimCuts(s: string) returns (before: string, after: string)
    ensures s == before + Trim(s) + after && AllWhitespace(before) && AllWhitespace(after)
    ensures Trim(s) != "" ==> !IsWhitespace(Trim(s)[0]) && !IsWhitespace(Trim(s)[|Trim(s)| - 1])
  {
    var j := TrimStartCuts(s);
    var k := TrimEndCuts(s[j..]);
    before, after := s[..j], s[j..][k..];
    assert s == s[..j] + (s[j..][..k] + s[j..][k..]);
  }

  lemma {:induction false} SplitDropsStart(before: string, s: string)
    requires AllWhitespace(before)
    ensures SplitWhitespace(before + s) == SplitWhitespace(s)
  {
    if before == [] {
      assert before + s == s;
    } else {
      SplitDropsStart(before[1..], s);
      assert (before + s)[1..] == before[1..] + s;
    }
  }

  lemma WordEndsAt(s: string, n: nat)
    requires n <= |s| && forall i :: 0 <= i < n ==> !IsWhitespace(s[i])
    requires n < |s| ==> IsWhitespace(s[n])
    ensures WordLength(s) == n
  {
  }

  lemma {:induction false} SplitDropsEnd(s: string, c: char)
    requires IsWhitespace(c)
    ensures SplitWhitespace(s + [c]) == SplitWhitespace(s)
    decreases |s|
  {
    var t := s + [c];
    if s == [] {
      assert t[1..] == [];
    } else if IsWhitespace(s[0]) {
      SplitDropsEnd(s[1..], c);
      assert t[1..] == s[1..] + [c];
    } else {
      var n := WordLength(s);
      assert forall i :: 0 <= i < |s| ==> t[i] == s[i];
      WordEndsAt(t, n);
      assert t[..n] == s[..n] && t[n..] == s[n..] + [c];
      SplitDropsEnd(s[n..], c);
    }
  }

  lemma {:induction false} SplitDropsEnds(s: string, after: string)
    requires AllWhitespace(after)
    ensures SplitWhitespace(s + after) == SplitWhitespace(s)
  {
    if after == [] {
      assert s + after == s;
    } else {
      var n := |after| - 1;
      SplitDropsEnds(s, after[..n]);
      SplitDropsEnd(s + after[..n], after[n]);
      assert s + after == s + after[..n] + [after[n]];
    }
  }

  lemma SplitTrimmed(s: string)
    ensures SplitWhitespace(Trim(s)) == SplitWhitespace(s)
  {
    var before, after := TrimCuts(s);
    SplitDropsStart(before, Trim(s));
    SplitDropsEnds(before + Trim(s), after);
  }

  function LowerAll(ws: seq<string>): (r: seq<string>)
    ensures |r| == |ws|
    ensures forall i :: 0 <= i < |ws| ==> r[i] == AsciiLower(ws[i])
  {
    seq(|ws|, i requires 0 <= i < |ws| => AsciiLower(ws[i]))
  }

  lemma {:induction false} LowerJoined(ws: seq<string>)
    ensures AsciiLower(JoinWords(ws)) == JoinWords(LowerAll(ws))
  {
    if |ws| > 1 {
      LowerJoined(ws[1..]);
      assert LowerAll(ws)[1..] == LowerAll(ws[1..]);
      assert AsciiLower(ws[0] + " " + JoinWords(ws[1..])) == AsciiLower(ws[0]) + " " + AsciiLower(JoinWords(ws[1..]));
    }
  }

  // The same words in the same order, up to ASCII case.
  predicate SameWords(a: string, b: string) {
    var x, y := SplitWhitespace(a), SplitWhitespace(b);
    |x| == |y| && forall i :: 0 <= i < |x| ==> SameUpToCase(x[i], y[i])
  }

  lemma LowerWords(a: string, b: string)
    ensures LowerAll(SplitWhitespace(a)) == LowerAll(SplitWhitespace(b)) <==> SameWords(a, b)
  {
    var x, y := SplitWhitespace(a), SplitWhitespace(b);
    forall i | 0 <= i < |x| && i < |y|
      ensures AsciiLower(x[i]) == AsciiLower(y[i]) <==> SameUpToCase(x[i], y[i])
    {
      LowerSame(x[i], y[i]);
    }
    if LowerAll(x) == LowerAll(y) {
      assert forall i :: 0 <= i < |x| ==> LowerAll(x)[i] == LowerAll(y)[i];
    }
  }

  // A number in decimal digits.
  function Decimal(n: nat): string {
    var digit := [('0' as int + n % 10) as char];
    if n < 10 then digit else Decimal(n / 10) + digit
  }

  lemma {:induction false} DecimalDigits(n: nat)
    ensures Decimal(n) != "" && forall i :: 0 <= i < |Decimal(n)| ==> '0' <= Decimal(n)[i] <= '9'
  {
    if n >= 10 {
      DecimalDigits(n / 10);
    }
  }

  lemma {:induction false} DecimalInjective(m: nat, n: nat)
    requires Decimal(m) == Decimal(n)
    ensures m == n
  {
    var a, b := Decimal(m), Decimal(n);
    assert a[|a| - 1] == ('0' as int + m % 10) as char && b[|b| - 1] == ('0' as int + n % 10) as char;
    DecimalDigits(m / 10);
    DecimalDigits(n / 10);
    if m >= 10 && n >= 10 {
      assert a[..|a| - 1] == Decimal(m / 10) && b[..|b| - 1] == Decimal(n / 10);
      DecimalInjective(m / 10, n / 10);
    }
  }

  // Rust's ordering of strings: UTF-8 keeps the order of code points.
  predicate LexLeq(a: string, b: string) {
    a == [] || (b != [] && (a[0] < b[0] || (a[0] == b[0] && LexLeq(a[1..], b[1..]))))
  }

  lemma {:induction false} LexTotal(a: string, b: string)
    ensures LexLeq(a, b) || LexLeq(b, a)
  {
    if a != [] && b != [] && a[0] == b[0] {
      LexTotal(a[1..], b[1..]);
    }
  }

  lemma {:induction false} LexTransitive(a: string, b: string, c: string)
    requires LexLeq(a, b) && LexLeq(b, c)
    ensures LexLeq(a, c)
  {
    if a != [] && b != [] && c != [] && a[0] == b[0] && b[0] == c[0] {
      LexTransitive(a[1..], b[1..], c[1..]);
    }
  }

  ghost predicate Sorted<T>(s: seq<T>, key: T -> string) {
    forall i, j :: 0 <= i < j < |s| ==> LexLeq(key(s[i]), key(s[j]))
  }

  function InsertSorted<T>(x: T, s: seq<T>, key: T -> string): (r: seq<T>)
    ensures multiset(r) == multiset(s) + multiset{x}
  {
    if s == [] then [x]
    else if LexLeq(key(x), key(s[0])) then [x] + s
    else
      assert s == [s[0]] + s[1..];
      [s[0]] + InsertSorted(x, s[1..], key)
  }

  // The stable sort of Rust's `sort` and `sort_by`.
  function Sort<T>(s: seq<T>, key: T -> string): (r: seq<T>)
    ensures multiset(r) == multiset(s)
    ensures |r| == |s|
  {
    if s == [] then []
    else
      assert s == [s[0]] + s[1..];
      var r := InsertSorted(s[0], Sort(s[1..], key), key);
      assert |multiset(r)| == |multiset(s)|;
      r
  }

  lemma SameMultisetSameElements<T>(a: seq<T>, b: seq<T>)
    requires multiset(a) == multiset(b)
    ensures |a| == |b|
    ensures forall x :: x in a <==> x in b
  {
    assert |multiset(a)| == |multiset(b)|;
    forall x
      ensures x in a <==> x in b
    {
      assert x in a <==> x in multiset(a);
      assert x in b <==> x in multiset(b);
    }
  }

  lemma {:induction false} InsertSortedSorted<T>(x: T, s: seq<T>, key: T -> string)
    requires Sorted(s, key)
    ensures Sorted(InsertSorted(x, s, key), key)
  {
    if s != [] {
      if LexLeq(key(x), key(s[0])) {
        forall i | 0 <= i < |s|
          ensures LexLeq(key(x), key(s[i]))
        {
          if i > 0 {
            LexTransitive(key(x), key(s[0]), key(s[i]));
          }
        }
      } else {
        LexTotal(key(x), key(s[0]));
        var r := InsertSorted(x, s[1..], key);
        InsertSortedSorted(x, s[1..], key);
        forall y | y in r
          ensures LexLeq(key(s[0]), key(y))
        {
          assert y in multiset(r);
          if y != x {
            assert y in s[1..];
          }
        }
      }
    }
  }

  lemma {:induction false} SortSorted<T>(s: seq<T>, key: T -> string)
    ensures Sorted(Sort(s, key), key)
  {
    if s != [] {
      SortSorted(s[1..], key);
      InsertSortedSorted(s[0], Sort(s[1..], key), key);
    }
  }

  predicate Increases(s: seq<nat>) {
    forall i, j :: 0 <= i < j < |s| ==> s[i] < s[j]
  }

  // No value occurs twice.
  predicate NoRepeats<T(==)>(s: seq<T>) {
    forall i, j :: 0 <= i < j < |s| ==> s[i] != s[j]
  }

  lemma NoRepeatsConcat<T>(a: seq<T>, b: seq<T>)
    requires NoRepeats(a) && NoRepeats(b)
    requires forall x :: x in a ==> x !in b
    ensures NoRepeats(a + b)
  {
    forall i, j | 0 <= i < j < |a + b|
      ensures (a + b)[i] != (a + b)[j]
    {
      if i < |a| <= j {
        assert a[i] in a && b[j - |a|] in b;
      }
    }
  }

  lemma {:induction false} NoRepeatsMultiplicity<T>(s: seq<T>)
    ensures NoRepeats(s) <==> forall x :: multiset(s)[x] <= 1
  {
    if s != [] {
      var t := s[1..];
      assert s == [s[0]] + t;
      NoRepeatsMultiplicity(t);
      assert forall x :: multiset(s)[x] == multiset(t)[x] + (if x == s[0] then 1 else 0);
      if NoRepeats(s) {
        assert s[0] !in t;
        assert NoRepeats(t);
      } else {
        var i, j :| 0 <= i < j < |s| && s[i] == s[j];
        if i == 0 {
          assert t[j - 1] == s[0];
          assert s[0] in multiset(t);
          assert multiset(s)[s[0]] >= 2;
        } else {
          assert t[i - 1] == t[j - 1];
          var x :| multiset(t)[x] > 1;
          assert multiset(s)[x] > 1;
        }
      }
    }
  }

  lemma {:induction false} SubsetIsSmaller<T>(a: set<T>, b: set<T>)
    requires a <= b
    ensures |a| <= |b|
  {
    if x :| x in a {
      SubsetIsSmaller(a - {x}, b - {x});
    }
  }

  lemma SortFacts<T>(s: seq<T>, key: T -> string)
    ensures Sorted(Sort(s, key), key)
    ensures NoRepeats(s) ==> NoRepeats(Sort(s, key))
    ensures forall x :: x in Sort(s, key) <==> x in s
  {
    SortSorted(s, key);
    SameMultisetSameElements(Sort(s, key), s);
    NoRepeatsMultiplicity(s);
    NoRepeatsMultiplicity(Sort(s, key));
  }
}
