/** Ordering the scored entries, selecting those above the threshold, and the
    confidence derived from them. */
module Ranking {
  import opened Scoring

  /** Scores at or above this take part in the answer. */
  const MinThreshold: nat := 10

  /** A score of this or more gives full confidence. */
  const FullConfidenceScore: real := 30.0

  predicate NonIncreasing(s: seq<Scored>) {
    forall i, j :: 0 <= i < j < |s| ==> s[i].score >= s[j].score
  }

  /** The entries of s that have score v, in their order in s. */
  function WithScore(s: seq<Scored>, v: nat): seq<Scored> {
    if s == [] then []
    else (if s[0].score == v then [s[0]] else []) + WithScore(s[1..], v)
  }

  /** Places x in front of the first entry whose score does not exceed its own,
      so that x stays ahead of the later entries it ties with. */
  function Insert(x: Scored, s: seq<Scored>): seq<Scored> {
    if s == [] || s[0].score <= x.score then [x] + s
    else [s[0]] + Insert(x, s[1..])
  }

  /** `list.sort(key=score, reverse=True)`: a stable sort by descending score. */
  function SortDescending(s: seq<Scored>): seq<Scored> {
    if s == [] then [] else Insert(s[0], SortDescending(s[1..]))
  }

  lemma {:induction false} InsertSorted(x: Scored, s: seq<Scored>)
    requires NonIncreasing(s)
    ensures NonIncreasing(Insert(x, s))
    ensures Insert(x, s)[0] == if s == [] || s[0].score <= x.score then x else s[0]
  {
    if s != [] && s[0].score > x.score {
      InsertSorted(x, s[1..]);
      var t := Insert(x, s[1..]);
      assert t[0].score <= s[0].score;
      assert forall k :: 0 <= k < |t| ==> t[k].score <= t[0].score;
    }
  }

  lemma {:induction false} InsertMultiset(x: Scored, s: seq<Scored>)
    ensures multiset(Insert(x, s)) == multiset(s) + multiset{x}
  {
    if s != [] && s[0].score > x.score {
      InsertMultiset(x, s[1..]);
      assert s == [s[0]] + s[1..];
    }
  }

  lemma {:induction false} InsertWithScore(x: Scored, s: seq<Scored>, v: nat)
    ensures WithScore(Insert(x, s), v) == (if x.score == v then [x] else []) + WithScore(s, v)
  {
    if s == [] || s[0].score <= x.score {
      WithScoreCons(x, s, v);
    } else {
      var rest := Insert(x, s[1..]);
      InsertWithScore(x, s[1..], v);
      WithScoreCons(s[0], rest, v);
      assert s == [s[0]] + s[1..];
      WithScoreCons(s[0], s[1..], v);
      // x's score is below s[0]'s, so at most one of them has score v
      assert s[0].score != v || x.score != v;
    }
  }

  lemma WithScoreCons(y: Scored, t: seq<Scored>, v: nat)
    ensures WithScore([y] + t, v) == (if y.score == v then [y] else []) + WithScore(t, v)
  {
    assert ([y] + t)[0] == y && ([y] + t)[1..] == t;
  }

  /** In a non-increasing list no entry scores above the first. */
  lemma HeadIsMax(s: seq<Scored>, j: nat)
    requires NonIncreasing(s) && j < |s|
    ensures s[j].score <= s[0].score
  {
    if j > 0 {
      assert s[0].score >= s[j].score;
    }
  }

  /** The sorted entries are non-increasing by score and a permutation of the
      input. */
  lemma {:induction false} SortDescendingSorted(s: seq<Scored>)
    ensures NonIncreasing(SortDescending(s))
    ensures multiset(SortDescending(s)) == multiset(s)
  {
    if s != [] {
      var t := SortDescending(s[1..]);
      SortDescendingSorted(s[1..]);
      assert SortDescending(s) == Insert(s[0], t);
      InsertSorted(s[0], t);
      InsertMultiset(s[0], t);
      assert s == [s[0]] + s[1..];
      assert multiset(s) == multiset(s[1..]) + multiset{s[0]};
    }
  }

  /** Stability: for every score, the entries with that score come out in the
      order they went in. */
  lemma {:induction false} SortDescendingStable(s: seq<Scored>, v: nat)
    ensures WithScore(SortDescending(s), v) == WithScore(s, v)
  {
    if s != [] {
      SortDescendingStable(s[1..], v);
      InsertWithScore(s[0], SortDescending(s[1..]), v);
    }
  }

  /** The sort is determined by its two properties: any non-increasing
      rearrangement that keeps every score's entries in input order is the
      sorted list. */
  lemma {:induction false} SortDescendingUnique(s: seq<Scored>, t: seq<Scored>)
    requires NonIncreasing(t)
    requires forall v :: WithScore(t, v) == WithScore(s, v)
    ensures t == SortDescending(s)
  {
    SortDescendingSorted(s);
    forall v { SortDescendingStable(s, v); }
    SameGroupsUnique(t, SortDescending(s));
  }

  /** Two non-increasing lists with the same entries per score are equal. */
  lemma {:induction false} SameGroupsUnique(a: seq<Scored>, b: seq<Scored>)
    requires NonIncreasing(a) && NonIncreasing(b)
    requires forall v :: WithScore(a, v) == WithScore(b, v)
    ensures a == b
    decreases |a| + |b|
  {
    if a == [] || b == [] {
      if a != [] {
        HeadHasGroup(a);
        assert false;
      } else if b != [] {
        HeadHasGroup(b);
        assert false;
      }
    } else {
      var m := if a[0].score >= b[0].score then a[0].score else b[0].score;
      TopGroup(a, m);
      TopGroup(b, m);
      assert WithScore(a, m) == WithScore(b, m);
      // the larger head score heads both lists
      assert a[0] == b[0];
      forall v ensures WithScore(a[1..], v) == WithScore(b[1..], v) {
        var head: seq<Scored> := if a[0].score == v then [a[0]] else [];
        assert WithScore(a, v) == head + WithScore(a[1..], v);
        assert WithScore(b, v) == head + WithScore(b[1..], v);
        assert WithScore(a[1..], v) == WithScore(a, v)[|head|..];
        assert WithScore(b[1..], v) == WithScore(b, v)[|head|..];
      }
      SameGroupsUnique(a[1..], b[1..]);
      assert a == [a[0]] + a[1..] && b == [b[0]] + b[1..];
    }
  }

  lemma HeadHasGroup(s: seq<Scored>)
    requires s != []
    ensures WithScore(s, s[0].score) != []
  {
  }

  /** In a non-increasing list whose scores are all at most m, the list starts
      with an entry of score m exactly when some entry has score m, and that
      entry is the first of WithScore(s, m). */
  lemma {:induction false} TopGroup(s: seq<Scored>, m: nat)
    requires NonIncreasing(s) && s != []
    requires s[0].score <= m
    ensures s[0].score == m ==> WithScore(s, m) != [] && WithScore(s, m)[0] == s[0]
    ensures s[0].score < m ==> WithScore(s, m) == []
  {
    if s[0].score < m {
      NoneWithScore(s, m);
    }
  }

  lemma {:induction false} NoneWithScore(s: seq<Scored>, m: nat)
    requires forall k :: 0 <= k < |s| ==> s[k].score < m
    ensures WithScore(s, m) == []
  {
    if s != [] { NoneWithScore(s[1..], m); }
  }

  /** The entries scoring at least the threshold, in order. */
  function Select(s: seq<Scored>): (r: seq<Scored>)
    ensures |r| <= |s|
    ensures forall k :: 0 <= k < |r| ==> r[k].score >= MinThreshold
  {
    if s == [] then []
    else (if s[0].score >= MinThreshold then [s[0]] else []) + Select(s[1..])
  }

  /** Every selected entry is an entry of the input. */
  lemma {:induction false} SelectFromInput(s: seq<Scored>)
    ensures forall k :: 0 <= k < |Select(s)| ==> Select(s)[k] in s
  {
    if s != [] {
      var t := s[1..];
      SelectFromInput(t);
      var head := if s[0].score >= MinThreshold then [s[0]] else [];
      assert Select(s) == head + Select(t);
      forall k | 0 <= k < |Select(s)| ensures Select(s)[k] in s {
        if k < |head| {
          assert Select(s)[k] == s[0];
        } else {
          assert Select(s)[k] == Select(t)[k - |head|];
          assert Select(t)[k - |head|] in t;
        }
      }
    }
  }

  /** Nothing is selected exactly when every score is below the threshold. */
  lemma {:induction false} SelectEmptyIff(s: seq<Scored>)
    ensures Select(s) == [] <==> forall k :: 0 <= k < |s| ==> s[k].score < MinThreshold
  {
    if s != [] {
      SelectEmptyIff(s[1..]);
      if Select(s) == [] {
        forall k | 0 <= k < |s| ensures s[k].score < MinThreshold {
          if k > 0 { assert s[k] == s[1..][k - 1]; }
        }
      }
    }
  }

  /** On a non-increasing list the selected entries are a prefix: the list up
      to the first score below the threshold. */
  lemma {:induction false} SelectPrefix(s: seq<Scored>) returns (n: nat)
    requires NonIncreasing(s)
    ensures n <= |s| && Select(s) == s[..n]
    ensures forall k :: 0 <= k < n ==> s[k].score >= MinThreshold
    ensures forall k :: n <= k < |s| ==> s[k].score < MinThreshold
  {
    if s == [] {
      n := 0;
    } else if s[0].score >= MinThreshold {
      var t := s[1..];
      var m := SelectPrefix(t);
      n := m + 1;
      assert Select(s) == [s[0]] + Select(t);
      assert s[..n] == [s[0]] + t[..m];
      forall k | 0 <= k < n ensures s[k].score >= MinThreshold {
        if k > 0 { assert s[k] == t[k - 1]; }
      }
      forall k | n <= k < |s| ensures s[k].score < MinThreshold {
        assert s[k] == t[k - 1];
      }
    } else {
      n := 0;
      forall k | 0 <= k < |s| ensures s[k].score < MinThreshold {
        assert s[k].score <= s[0].score;
      }
      SelectEmptyIff(s);
      assert Select(s) == [] == s[..0];
    }
  }

  function RealMin(a: real, b: real): real { if a <= b then a else b }

  /** The confidence: 0.0 when nothing is selected, else the first selected
      score over 30, capped at 1. */
  function Confidence(s: seq<Scored>): (c: real)
    ensures 0.0 <= c <= 1.0
    ensures c == 0.0 <==> Select(s) == []
  {
    var selected := Select(s);
    if selected == [] then 0.0
    else RealMin(1.0, selected[0].score as real / FullConfidenceScore)
  }

  /** The largest score in a non-empty list. */
  function MaxScore(s: seq<Scored>): (m: nat)
    requires s != []
    ensures forall k :: 0 <= k < |s| ==> s[k].score <= m
    ensures exists k :: 0 <= k < |s| && s[k].score == m
  {
    if |s| == 1 then s[0].score
    else
      var rest := MaxScore(s[1..]);
      assert forall k :: 1 <= k < |s| ==> s[k] == s[1..][k - 1];
      if s[0].score >= rest then s[0].score else rest
  }

  /** On a sorted list the confidence is 0.0 when no score reaches the
      threshold, and otherwise the top score over 30, capped at 1, which lies
      between 1/3 and 1. */
  lemma ConfidenceOfSorted(s: seq<Scored>)
    requires NonIncreasing(s)
    ensures Select(s) == [] ==> Confidence(s) == 0.0
    ensures Select(s) != [] ==>
      Confidence(s) == RealMin(1.0, MaxScore(s) as real / FullConfidenceScore) &&
      1.0 / 3.0 <= Confidence(s) <= 1.0
  {
    var n := SelectPrefix(s);
    if n > 0 {
      assert Select(s)[0] == s[0];
      assert MaxScore(s) == s[0].score by {
        var k :| 0 <= k < |s| && s[k].score == MaxScore(s);
        assert s[0].score >= s[k].score;
      }
    }
  }
}
