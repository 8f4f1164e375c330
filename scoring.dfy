/** The integer relevance heuristic: one score per knowledge-base entry. */
module Scoring {
  import opened Strings

  /** One scored entry, as the tuple (score, content, key). */
  datatype Scored = Scored(score: nat, content: string, key: string)

  /** The six named word groups, in table order: policy, ethics, process,
      government, legal, finance. */
  const Groups: seq<set<string>> := [
    {"policy", "policies", "development", "implementation", "strategy", "guidance", "framework"},
    {"ethics", "code", "conduct", "values", "integrity", "honesty", "impartiality", "objectivity"},
    {"process", "procedure", "steps", "stages", "workflow", "cycle", "methodology"},
    {"government", "minister", "ministerial", "parliament", "parliamentary", "public", "authority"},
    {"law", "legal", "act", "legislation", "regulation", "compliance", "duty", "rights"},
    {"finance", "treasury", "money", "value", "appraisal", "cost", "benefit"}
  ]

  /** What one group adds: twice the smaller of the two hit counts, when both
      sides hit the group. */
  function GroupBonus(q: set<string>, c: set<string>, g: set<string>): nat {
    var a := |q * g|;
    var b := |c * g|;
    if a > 0 && b > 0 then 2 * Min(a, b) else 0
  }

  /** The semantic bonus over a list of groups. */
  function SemanticScore(q: set<string>, c: set<string>, gs: seq<set<string>>): nat
    decreases |gs|
  {
    if gs == [] then 0 else GroupBonus(q, c, gs[0]) + SemanticScore(q, c, gs[1..])
  }

  /** The loop that sums the group bonuses. */
  method CalculateSemanticRelevance(q: set<string>, c: set<string>) returns (score: nat)
    ensures score == SemanticScore(q, c, Groups)
  {
    score := 0;
    var i := 0;
    while i < |Groups|
      invariant 0 <= i <= |Groups|
      invariant score + SemanticScore(q, c, Groups[i..]) == SemanticScore(q, c, Groups)
    {
      SemanticStep(q, c, Groups, i);
      var a := |q * Groups[i]|;
      var b := |c * Groups[i]|;
      if a > 0 && b > 0 {
        score := score + Min(a, b) * 2;
      }
      i := i + 1;
    }
  }

  lemma SemanticStep(q: set<string>, c: set<string>, gs: seq<set<string>>, i: nat)
    requires i < |gs|
    ensures SemanticScore(q, c, gs[i..]) == GroupBonus(q, c, gs[i]) + SemanticScore(q, c, gs[i + 1..])
  {
    assert gs[i..][1..] == gs[i + 1..];
  }

  /** The guard on hits is redundant: a group contributes 2 * min of the hit
      counts in every case, hence nothing when either side misses it. */
  lemma GroupBonusIsMin(q: set<string>, c: set<string>, g: set<string>)
    ensures GroupBonus(q, c, g) == 2 * Min(|q * g|, |c * g|)
    ensures q * g == {} || c * g == {} ==> GroupBonus(q, c, g) == 0
  {
  }

  /** The semantic bonus does not depend on which side is the query. */
  lemma {:induction false} SemanticSymmetric(q: set<string>, c: set<string>, gs: seq<set<string>>)
    ensures SemanticScore(q, c, gs) == SemanticScore(c, q, gs)
    decreases |gs|
  {
    if gs != [] {
      SemanticSymmetric(q, c, gs[1..]);
    }
  }

  /** A query that hits no group gets no semantic bonus, whatever the content. */
  lemma {:induction false} SemanticZeroWithoutHits(q: set<string>, c: set<string>, gs: seq<set<string>>)
    requires forall k :: 0 <= k < |gs| ==> q * gs[k] == {}
    ensures SemanticScore(q, c, gs) == 0
    decreases |gs|
  {
    if gs != [] {
      assert q * gs[0] == {};
      SemanticZeroWithoutHits(q, c, gs[1..]);
    }
  }

  /** The words of an entry's key: the lowercased key split on '_'. */
  function KeyWords(key: string): set<string> {
    set w | w in Split(Lower(key), '_')
  }

  predicate KeyMatch(qWords: set<string>, key: string) {
    exists w :: w in qWords && w in KeyWords(key)
  }

  /** The score of one entry for the typo-fixed query text `q` and its
      tokens `qWords`. */
  function EntryScore(q: string, qWords: set<string>, key: string, content: string): nat {
    var lc := Lower(content);
    var cWords := Tokens(lc);
    (if Contains(lc, q) then 20 else 0)
      + 3 * |qWords * cWords|
      + (if KeyMatch(qWords, key) then 10 else 0)
      + SemanticScore(qWords, cWords, Groups)
  }

  /** An entry with its score. */
  function Rate(q: string, qWords: set<string>, e: (string, string)): Scored {
    Scored(EntryScore(q, qWords, e.0, e.1), e.1, e.0)
  }

  /** The items of s rated by f, keeping those with a positive score, in the
      order of s. */
  function KeepPositive<A>(f: A -> Scored, s: seq<A>): seq<Scored>
    decreases |s|
  {
    if s == [] then []
    else
      var r := f(s[|s| - 1]);
      KeepPositive(f, s[..|s| - 1]) + (if r.score > 0 then [r] else [])
  }

  /** The scored entries: every entry of `kb` with a positive score, in
      knowledge-base order. */
  function ScoreAll(kb: seq<(string, string)>, q: string, qWords: set<string>): seq<Scored> {
    KeepPositive(e => Rate(q, qWords, e), kb)
  }

  /** The body of the loop over the knowledge base: the score of one entry,
      summed part by part. */
  method RateEntry(q: string, qWords: set<string>, key: string, content: string) returns (score: nat)
    ensures score == EntryScore(q, qWords, key, content)
  {
    score := 0;
    var contentLower := Lower(content);
    if Contains(contentLower, q) {
      score := score + 20;
    }
    ghost var phrase := score;
    var contentWords := Tokens(contentLower);
    var overlap := |qWords * contentWords|;
    score := score + overlap * 3;
    if KeyMatch(qWords, key) {
      score := score + 10;
    }
    ghost var keyed := score - phrase - overlap * 3;
    assert phrase == (if Contains(contentLower, q) then 20 else 0);
    assert keyed == (if KeyMatch(qWords, key) then 10 else 0);
    var bonus := CalculateSemanticRelevance(qWords, contentWords);
    score := score + bonus;
    assert score == phrase + 3 * |qWords * contentWords| + keyed + SemanticScore(qWords, contentWords, Groups);
  }

  /** The loop over the knowledge base. */
  method ScoreEntries(kb: seq<(string, string)>, q: string, qWords: set<string>) returns (scored: seq<Scored>)
    ensures scored == ScoreAll(kb, q, qWords)
  {
    scored := [];
    var i := 0;
    while i < |kb|
      invariant 0 <= i <= |kb|
      invariant scored == ScoreAll(kb[..i], q, qWords)
    {
      var key := kb[i].0;
      var content := kb[i].1;
      var score := RateEntry(q, qWords, key, content);
      ScoreAllStep(kb, i, q, qWords);
      if score > 0 {
        scored := scored + [Scored(score, content, key)];
      }
      i := i + 1;
    }
    assert kb[..|kb|] == kb;
  }

  lemma ScoreAllStep(kb: seq<(string, string)>, i: nat, q: string, qWords: set<string>)
    requires i < |kb|
    ensures var r := Rate(q, qWords, kb[i]);
      ScoreAll(kb[..i + 1], q, qWords) == ScoreAll(kb[..i], q, qWords) + (if r.score > 0 then [r] else [])
  {
    KeepPositiveStep(e => Rate(q, qWords, e), kb, i);
  }

  lemma KeepPositiveStep<A>(f: A -> Scored, s: seq<A>, i: nat)
    requires i < |s|
    ensures var r := f(s[i]);
      KeepPositive(f, s[..i + 1]) == KeepPositive(f, s[..i]) + (if r.score > 0 then [r] else [])
  {
    assert s[..i + 1][..i] == s[..i];
  }

  /** An entry is kept exactly when its score is positive, and it is kept with
      that score. */
  lemma ScoreAllMembers(kb: seq<(string, string)>, q: string, qWords: set<string>, x: Scored)
    ensures x in ScoreAll(kb, q, qWords) <==> x.score > 0 && exists e :: e in kb && x == Rate(q, qWords, e)
  {
    var f := e => Rate(q, qWords, e);
    KeepPositiveMembers(f, kb, x);
    assert (exists e :: e in kb && x == f(e)) <==> exists e :: e in kb && x == Rate(q, qWords, e);
  }

  lemma {:induction false} KeepPositiveMembers<A>(f: A -> Scored, s: seq<A>, x: Scored)
    ensures x in KeepPositive(f, s) <==> x.score > 0 && exists e :: e in s && x == f(e)
    decreases |s|
  {
    if s != [] {
      var init := s[..|s| - 1];
      var last := s[|s| - 1];
      assert s == init + [last];
      KeepPositiveMembers(f, init, x);
      assert forall e :: e in s <==> e in init || e == last;
    }
  }

  /** Scoring keeps knowledge-base order: the entries kept from a first part of
      the knowledge base come before those kept from the rest. */
  lemma ScoreAllAppend(a: seq<(string, string)>, b: seq<(string, string)>, q: string, qWords: set<string>)
    ensures ScoreAll(a + b, q, qWords) == ScoreAll(a, q, qWords) + ScoreAll(b, q, qWords)
  {
    KeepPositiveAppend(e => Rate(q, qWords, e), a, b);
  }

  lemma {:induction false} KeepPositiveAppend<A>(f: A -> Scored, a: seq<A>, b: seq<A>)
    ensures KeepPositive(f, a + b) == KeepPositive(f, a) + KeepPositive(f, b)
    decreases |b|
  {
    if b == [] {
      assert a + b == a;
    } else {
      var init := b[..|b| - 1];
      var r := f(b[|b| - 1]);
      var tail := if r.score > 0 then [r] else [];
      assert (a + b)[..|a + b| - 1] == a + init;
      assert (a + b)[|a + b| - 1] == b[|b| - 1];
      assert KeepPositive(f, a + b) == KeepPositive(f, a + init) + tail;
      assert KeepPositive(f, b) == KeepPositive(f, init) + tail;
      KeepPositiveAppend(f, a, init);
    }
  }

  /** Every kept entry has a positive score. */
  lemma ScoreAllPositive(kb: seq<(string, string)>, q: string, qWords: set<string>)
    ensures forall k :: 0 <= k < |ScoreAll(kb, q, qWords)| ==> ScoreAll(kb, q, qWords)[k].score > 0
  {
    KeepPositivePositive(e => Rate(q, qWords, e), kb);
  }

  lemma {:induction false} KeepPositivePositive<A>(f: A -> Scored, s: seq<A>)
    ensures forall k :: 0 <= k < |KeepPositive(f, s)| ==> KeepPositive(f, s)[k].score > 0
    decreases |s|
  {
    if s != [] { KeepPositivePositive(f, s[..|s| - 1]); }
  }

  /** A query token that also occurs in the content earns at least 3 points. */
  lemma SharedTokenScores(q: string, qWords: set<string>, key: string, content: string, w: string)
    requires w in qWords && w in Tokens(Lower(content))
    ensures EntryScore(q, qWords, key, content) >= 3
  {
    assert w in qWords * Tokens(Lower(content));
  }

  /** A query token among the key's words earns at least 10 points. */
  lemma KeyTokenScores(q: string, qWords: set<string>, key: string, content: string, w: string)
    requires w in qWords && w in Split(Lower(key), '_')
    ensures EntryScore(q, qWords, key, content) >= 10
  {
    assert w in KeyWords(key);
  }
}
