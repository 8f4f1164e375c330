/** The Python string builtins the engine relies on (`lower`, `in`, `replace`,
    `split`, `strip`, `re.findall(r'\w+')`, `re.split(r'\d+\.')`), restricted to
    ASCII text. */
module Strings {

  function Min(a: int, b: int): int { if a <= b then a else b }

  /** Characters matched by `\w` on ASCII text. */
  predicate IsWordChar(c: char) {
    'a' <= c <= 'z' || 'A' <= c <= 'Z' || '0' <= c <= '9' || c == '_'
  }

  predicate IsDigit(c: char) { '0' <= c <= '9' }

  /** The ASCII characters for which Python's `str.isspace` holds. */
  predicate IsSpace(c: char) {
    c == ' ' || (9 <= c as int <= 13) || (28 <= c as int <= 31)
  }

  function LowerChar(c: char): (r: char)
    ensures !('A' <= r <= 'Z')
  {
    if 'A' <= c <= 'Z' then (c as int + 32) as char else c
  }

  /** `s.lower()` on ASCII text. */
  function Lower(s: string): (r: string)
    ensures |r| == |s|
    ensures forall i :: 0 <= i < |s| ==> r[i] == LowerChar(s[i])
  {
    if s == [] then [] else [LowerChar(s[0])] + Lower(s[1..])
  }

  lemma {:induction false} LowerIdempotent(s: string)
    ensures Lower(Lower(s)) == Lower(s)
  {
    var l := Lower(s);
    var ll := Lower(l);
    assert |ll| == |l|;
    forall i | 0 <= i < |l| ensures ll[i] == l[i] {
      assert l[i] == LowerChar(s[i]);
    }
  }

  /** Text without capital letters is its own lowercase form. */
  lemma LowerOfLowercase(s: string)
    requires forall i :: 0 <= i < |s| ==> !('A' <= s[i] <= 'Z')
    ensures Lower(s) == s
  {
  }

  /** `p in s`: p occurs in s as a contiguous substring. */
  predicate Contains(s: string, p: string)
    decreases |s|
  {
    |p| <= |s| && (s[..|p|] == p || (|s| > 0 && Contains(s[1..], p)))
  }

  /** An occurrence of p at position i means p is in s. */
  lemma {:induction false} ContainsAt(s: string, p: string, i: nat)
    requires i + |p| <= |s| && s[i..i + |p|] == p
    ensures Contains(s, p)
    decreases i
  {
    if i > 0 {
      assert s[1..][i - 1..i - 1 + |p|] == s[i..i + |p|];
      ContainsAt(s[1..], p, i - 1);
    } else {
      assert s[..|p|] == s[0..0 + |p|];
    }
  }

  /** Conversely, a substring that is in s occurs at some position of s. */
  lemma {:induction false} ContainsIndex(s: string, p: string) returns (i: nat)
    requires Contains(s, p)
    ensures i + |p| <= |s| && s[i..i + |p|] == p
    decreases |s|
  {
    if s[..|p|] == p {
      i := 0;
    } else {
      var k := ContainsIndex(s[1..], p);
      i := k + 1;
      assert s[1..][k..k + |p|] == s[i..i + |p|];
    }
  }

  /** p occurs in s starting at position i. */
  predicate OccursAt(s: string, p: string, i: nat) {
    i + |p| <= |s| && s[i..i + |p|] == p
  }

  /** `p in s` holds exactly when p occurs at some position of s. */
  lemma ContainsIff(s: string, p: string)
    ensures Contains(s, p) <==> exists i: nat :: OccursAt(s, p, i)
  {
    if Contains(s, p) {
      var i := ContainsIndex(s, p);
      assert OccursAt(s, p, i);
    }
    if exists i: nat :: OccursAt(s, p, i) {
      var i: nat :| OccursAt(s, p, i);
      ContainsAt(s, p, i);
    }
  }

  /** Every character of a substring occurs in the string. */
  lemma {:induction false} ContainsChars(s: string, p: string, c: char)
    requires Contains(s, p) && c in p
    ensures c in s
    decreases |s|
  {
    if s[..|p|] == p {
      var k :| 0 <= k < |p| && p[k] == c;
      assert s[k] == c;
    } else {
      ContainsChars(s[1..], p, c);
    }
  }

  /** `s.replace(o, n)`: every non-overlapping occurrence of o, scanning from
      the left, is replaced by n. */
  function ReplaceAll(s: string, o: string, n: string): string
    requires |o| > 0
    decreases |s|
  {
    if |s| < |o| then s
    else if s[..|o|] == o then n + ReplaceAll(s[|o|..], o, n)
    else [s[0]] + ReplaceAll(s[1..], o, n)
  }

  /** A string in which o does not occur is returned unchanged. */
  lemma {:induction false} ReplaceAllAbsent(s: string, o: string, n: string)
    requires |o| > 0
    requires !Contains(s, o)
    ensures ReplaceAll(s, o, n) == s
    decreases |s|
  {
    if |s| >= |o| {
      ReplaceAllAbsent(s[1..], o, n);
      assert s == [s[0]] + s[1..];
    }
  }

  /** Replacing o by itself changes nothing. */
  lemma {:induction false} ReplaceAllSelf(s: string, o: string)
    requires |o| > 0
    ensures ReplaceAll(s, o, o) == s
    decreases |s|
  {
    if |s| >= |o| {
      if s[..|o|] == o {
        ReplaceAllSelf(s[|o|..], o);
        assert s == s[..|o|] + s[|o|..];
      } else {
        ReplaceAllSelf(s[1..], o);
        assert s == [s[0]] + s[1..];
      }
    }
  }

  /** `s.split(sep)` for a one-character separator. */
  function Split(s: string, sep: char): (r: seq<string>)
    ensures |r| >= 1
    decreases |s|
  {
    if s == [] then [[]]
    else
      var rest := Split(s[1..], sep);
      if s[0] == sep then [[]] + rest else [[s[0]] + rest[0]] + rest[1..]
  }

  /** The pieces concatenated with the separator between consecutive ones. */
  function Join(parts: seq<string>, sep: char): string
    requires |parts| >= 1
  {
    if |parts| == 1 then parts[0] else parts[0] + [sep] + Join(parts[1..], sep)
  }

  /** Splitting and re-joining gives back the string. */
  lemma {:induction false} JoinSplit(s: string, sep: char)
    ensures Join(Split(s, sep), sep) == s
    decreases |s|
  {
    if s != [] {
      var rest := Split(s[1..], sep);
      JoinSplit(s[1..], sep);
      if s[0] == sep {
        assert Split(s, sep)[1..] == rest;
      } else {
        var r := Split(s, sep);
        assert r[0] == [s[0]] + rest[0];
        if |rest| == 1 {
        } else {
          assert r[1..] == rest[1..];
        }
      }
    }
  }

  /** No piece of a split contains the separator. */
  lemma {:induction false} SplitPiecesFree(s: string, sep: char)
    ensures forall k :: 0 <= k < |Split(s, sep)| ==> sep !in Split(s, sep)[k]
    decreases |s|
  {
    if s != [] { SplitPiecesFree(s[1..], sep); }
  }

  /** Index of the first occurrence of c in s, or |s| when there is none. */
  function Find(s: string, c: char): (r: nat)
    ensures r <= |s|
    ensures r < |s| ==> s[r] == c
    ensures forall i :: 0 <= i < r ==> s[i] != c
  {
    if s == [] then 0 else if s[0] == c then 0 else 1 + Find(s[1..], c)
  }

  /** The first piece of a split is the text before the first separator. */
  lemma {:induction false} SplitFirstPiece(s: string, sep: char)
    ensures Split(s, sep)[0] == s[..Find(s, sep)]
    decreases |s|
  {
    if s != [] && s[0] != sep { SplitFirstPiece(s[1..], sep); }
  }

  function StripLeft(s: string): (r: string)
    decreases |s|
  {
    if s != [] && IsSpace(s[0]) then StripLeft(s[1..]) else s
  }

  function StripRight(s: string): (r: string)
    decreases |s|
  {
    if s != [] && IsSpace(s[|s| - 1]) then StripRight(s[..|s| - 1]) else s
  }

  /** `s.strip()`: leading and trailing whitespace removed. */
  function Strip(s: string): string { StripRight(StripLeft(s)) }

  /** Strip removes only whitespace, from both ends, and leaves a contiguous
      piece of s that neither starts nor ends with whitespace. */
  lemma {:induction false} StripShape(s: string)
    ensures var r := Strip(s);
      (exists i, j :: 0 <= i <= j <= |s| && r == s[i..j] &&
        (forall k :: 0 <= k < i ==> IsSpace(s[k])) &&
        (forall k :: j <= k < |s| ==> IsSpace(s[k]))) &&
      (r != [] ==> !IsSpace(r[0]) && !IsSpace(r[|r| - 1]))
  {
    var i := StripLeftIndex(s);
    var j := StripRightIndex(s[i..]);
    assert s[i..][..j] == s[i..i + j];
    assert forall k :: i + j <= k < |s| ==> s[k] == s[i..][k - i];
    StripLeftBoundary(s);
    var l := StripLeft(s);
    StripRightBoundary(l);
  }

  lemma {:induction false} StripLeftBoundary(s: string)
    ensures StripLeft(s) != [] ==> !IsSpace(StripLeft(s)[0])
    decreases |s|
  {
    if s != [] && IsSpace(s[0]) { StripLeftBoundary(s[1..]); }
  }

  lemma {:induction false} StripRightBoundary(s: string)
    ensures s != [] && !IsSpace(s[0]) && StripRight(s) != [] ==> !IsSpace(StripRight(s)[0])
    ensures StripRight(s) != [] ==> !IsSpace(StripRight(s)[|StripRight(s)| - 1])
    decreases |s|
  {
    if s != [] && IsSpace(s[|s| - 1]) {
      StripRightBoundary(s[..|s| - 1]);
      assert s[..|s| - 1] != [] ==> s[..|s| - 1][0] == s[0];
    }
  }

  lemma {:induction false} StripLeftIndex(s: string) returns (i: nat)
    ensures i <= |s| && StripLeft(s) == s[i..]
    ensures forall k :: 0 <= k < i ==> IsSpace(s[k])
    decreases |s|
  {
    if s != [] && IsSpace(s[0]) {
      var k := StripLeftIndex(s[1..]);
      i := k + 1;
      assert s[1..][k..] == s[i..];
      assert forall m :: 1 <= m < i ==> s[m] == s[1..][m - 1];
    } else {
      i := 0;
    }
  }

  lemma {:induction false} StripRightIndex(s: string) returns (j: nat)
    ensures j <= |s| && StripRight(s) == s[..j]
    ensures forall k :: j <= k < |s| ==> IsSpace(s[k])
    decreases |s|
  {
    if s != [] && IsSpace(s[|s| - 1]) {
      j := StripRightIndex(s[..|s| - 1]);
      assert s[..|s| - 1][..j] == s[..j];
      assert forall m :: j <= m < |s| - 1 ==> s[m] == s[..|s| - 1][m];
    } else {
      j := |s|;
    }
  }

  /** Length of the run of word characters at the start of s. */
  function WordRun(s: string): (n: nat)
    ensures n <= |s|
    ensures forall i :: 0 <= i < n ==> IsWordChar(s[i])
    ensures n < |s| ==> !IsWordChar(s[n])
  {
    if s != [] && IsWordChar(s[0]) then 1 + WordRun(s[1..]) else 0
  }

  /** `re.findall(r'\w+', s)`: the maximal runs of word characters, in order. */
  function FindWords(s: string): (ws: seq<string>)
    decreases |s|
  {
    if s == [] then []
    else if !IsWordChar(s[0]) then FindWords(s[1..])
    else
      var n := WordRun(s);
      [s[..n]] + FindWords(s[n..])
  }

  /** Every word found is a non-empty run of word characters. */
  lemma {:induction false} FindWordsShape(s: string)
    ensures forall k :: 0 <= k < |FindWords(s)| ==>
      FindWords(s)[k] != [] && forall i :: 0 <= i < |FindWords(s)[k]| ==> IsWordChar(FindWords(s)[k][i])
    decreases |s|
  {
    if s == [] {
    } else if !IsWordChar(s[0]) {
      FindWordsShape(s[1..]);
    } else {
      FindWordsShape(s[WordRun(s)..]);
    }
  }

  /** The set of the words of s. */
  function Tokens(s: string): set<string> {
    set w | w in FindWords(s)
  }

  /** w sits at position i of s as a maximal run of word characters: it is
      non-empty, made of word characters, and no word character touches it on
      either side. */
  predicate MaximalRunAt(s: string, i: nat, w: string) {
    w != [] && i + |w| <= |s| && s[i..i + |w|] == w &&
    (forall k :: i <= k < i + |w| ==> IsWordChar(s[k])) &&
    (i == 0 || !IsWordChar(s[i - 1])) &&
    (i + |w| == |s| || !IsWordChar(s[i + |w|]))
  }

  /** The tokens of s are exactly its maximal runs of word characters. */
  lemma TokensIff(s: string, w: string)
    ensures w in Tokens(s) <==> exists i: nat :: MaximalRunAt(s, i, w)
  {
    if w in FindWords(s) {
      var i := FindWordsSound(s, w);
    }
    if exists i: nat :: MaximalRunAt(s, i, w) {
      var i: nat :| MaximalRunAt(s, i, w);
      FindWordsComplete(s, i, w);
    }
  }

  /** A run that starts the text and stops at its first non-word character
      is the leading word run. */
  lemma WordRunUnique(s: string, n: nat)
    requires n <= |s|
    requires forall k :: 0 <= k < n ==> IsWordChar(s[k])
    requires n == |s| || !IsWordChar(s[n])
    ensures WordRun(s) == n
  {
  }

  /** A maximal run of a suffix s[d..] is one of s, unless it starts the
      suffix right after a word character. */
  lemma MaximalRunShift(s: string, d: nat, k: nat, w: string)
    requires d <= |s| && MaximalRunAt(s[d..], k, w)
    requires d == 0 || k > 0 || !IsWordChar(s[d - 1])
    ensures MaximalRunAt(s, k + d, w)
  {
    var i := k + d;
    assert s[d..][k..k + |w|] == s[i..i + |w|];
    assert forall m :: i <= m < i + |w| ==> s[m] == s[d..][m - d];
    assert i + |w| < |s| ==> s[i + |w|] == s[d..][k + |w|];
    assert k > 0 ==> s[i - 1] == s[d..][k - 1];
  }

  /** A maximal run of s that starts at or after d is one of s[d..]. */
  lemma MaximalRunUnshift(s: string, d: nat, i: nat, w: string)
    requires d <= i && MaximalRunAt(s, i, w)
    ensures MaximalRunAt(s[d..], i - d, w)
  {
    var k := i - d;
    assert s[d..][k..k + |w|] == s[i..i + |w|];
    assert forall m :: k <= m < k + |w| ==> s[d..][m] == s[m + d];
    assert k > 0 ==> s[d..][k - 1] == s[i - 1];
    assert k + |w| < |s| - d ==> s[d..][k + |w|] == s[i + |w|];
  }

  /** Each word found is a maximal run of s. */
  lemma {:induction false} FindWordsSound(s: string, w: string) returns (i: nat)
    requires w in FindWords(s)
    ensures MaximalRunAt(s, i, w)
    decreases |s|
  {
    if !IsWordChar(s[0]) {
      assert w in FindWords(s[1..]);
      var k := FindWordsSound(s[1..], w);
      MaximalRunShift(s, 1, k, w);
      i := k + 1;
    } else {
      var n := WordRun(s);
      assert FindWords(s) == [s[..n]] + FindWords(s[n..]);
      if w == s[..n] {
        LeadingRun(s);
        i := 0;
      } else {
        assert w in FindWords(s[n..]);
        var k := FindWordsSound(s[n..], w);
        RunAfterRun(s, k, w);
        i := k + n;
      }
    }
  }

  /** The leading word run of s is a maximal run at position 0. */
  lemma LeadingRun(s: string)
    requires s != [] && IsWordChar(s[0])
    ensures MaximalRunAt(s, 0, s[..WordRun(s)])
  {
    var n := WordRun(s);
    assert s[0..0 + n] == s[..n];
  }

  /** A maximal run of what follows the leading run is one of s. */
  lemma RunAfterRun(s: string, k: nat, w: string)
    requires s != [] && IsWordChar(s[0])
    requires MaximalRunAt(s[WordRun(s)..], k, w)
    ensures MaximalRunAt(s, k + WordRun(s), w)
  {
    var n := WordRun(s);
    var t := s[n..];
    assert t[k] == w[0] && IsWordChar(t[k]);
    assert n < |s| && t[0] == s[n];
    assert k > 0 by {
      assert !IsWordChar(t[0]);
    }
    MaximalRunShift(s, n, k, w);
  }

  /** Each maximal run of s is a word found. */
  lemma {:induction false} FindWordsComplete(s: string, i: nat, w: string)
    requires MaximalRunAt(s, i, w)
    ensures w in FindWords(s)
    decreases |s|
  {
    assert s[i] == w[0];
    if !IsWordChar(s[0]) {
      MaximalRunUnshift(s, 1, i, w);
      FindWordsComplete(s[1..], i - 1, w);
    } else {
      var n := WordRun(s);
      if i == 0 {
        WordRunUnique(s, |w|);
        assert s[..n] == s[0..0 + |w|];
      } else {
        assert !IsWordChar(s[i - 1]);
        MaximalRunUnshift(s, n, i, w);
        FindWordsComplete(s[n..], i - n, w);
      }
    }
  }

  /** Number of digits in the run that starts at position i of s. */
  function DigitRun(s: string, i: nat): (n: nat)
    requires i <= |s|
    ensures i + n <= |s|
    decreases |s| - i
  {
    if i < |s| && IsDigit(s[i]) then 1 + DigitRun(s, i + 1) else 0
  }

  /** Length of the match of `\d+\.` at position i, or 0 when it does not match
      there. The greedy `\d+` can only be followed by `.` at the end of the
      whole digit run, so no backtracking is needed. */
  function MarkerAt(s: string, i: nat): (n: nat)
    requires i <= |s|
    ensures i + n <= |s|
  {
    var d := DigitRun(s, i);
    if d > 0 && i + d < |s| && s[i + d] == '.' then d + 1 else 0
  }

  function NumberedSplitFrom(s: string, start: nat, i: nat): (r: seq<string>)
    requires start <= i <= |s|
    ensures |r| >= 1
    decreases |s| - i
  {
    if i == |s| then [s[start..]]
    else
      var m := MarkerAt(s, i);
      if m > 0 then [s[start..i]] + NumberedSplitFrom(s, i + m, i + m)
      else NumberedSplitFrom(s, start, i + 1)
  }

  /** The pieces of s between numbered markers (a run of digits followed by
      '.'), matched left to right without overlap. */
  function NumberedSplit(s: string): seq<string> {
    NumberedSplitFrom(s, 0, 0)
  }

  /** A text without a digit followed by `.` is not split at all. */
  lemma {:induction false} NumberedSplitNoMarker(s: string, start: nat, i: nat)
    requires start <= i <= |s|
    requires forall k :: 0 <= k < |s| - 1 ==> !(IsDigit(s[k]) && s[k + 1] == '.')
    ensures NumberedSplitFrom(s, start, i) == [s[start..]]
    decreases |s| - i
  {
    if i < |s| {
      var d := DigitRun(s, i);
      if d > 0 && i + d < |s| {
        DigitRunDigits(s, i);
        assert IsDigit(s[i + d - 1]);
      }
      assert MarkerAt(s, i) == 0;
      NumberedSplitNoMarker(s, start, i + 1);
    }
  }

  lemma {:induction false} DigitRunDigits(s: string, i: nat)
    requires i <= |s|
    ensures forall k :: i <= k < i + DigitRun(s, i) ==> IsDigit(s[k])
    decreases |s| - i
  {
    if i < |s| && IsDigit(s[i]) { DigitRunDigits(s, i + 1); }
  }
}
