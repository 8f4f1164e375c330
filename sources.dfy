/** The source list returned beside the answer: one record per scored entry,
    with its score normalised by the largest one. */
module Sources {
  import opened Scoring
  import opened Ranking

  /** One source record; the key stands in for the title derived from it. */
  datatype Source = Source(content: string, similarity: real, key: string, relevanceScore: nat)

  /** The divisor of the similarities: the largest score, but never below 1. */
  function Divisor(maxScore: nat): (d: nat)
    ensures d >= 1 && d >= maxScore
  {
    if maxScore >= 1 then maxScore else 1
  }

  function SourceOf(e: Scored, maxScore: nat): Source {
    Source(e.content, e.score as real / Divisor(maxScore) as real, e.key, e.score)
  }

  function SourcesWith(es: seq<Scored>, maxScore: nat): seq<Source> {
    if es == [] then [] else [SourceOf(es[0], maxScore)] + SourcesWith(es[1..], maxScore)
  }

  /** The source records: none for no entries, otherwise one per entry with
      the entry's score over the largest score. */
  function SourcesOf(es: seq<Scored>): seq<Source> {
    if es == [] then [] else SourcesWith(es, MaxScore(es))
  }

  /** The loop of `_prepare_sources`, after the largest score is found. */
  method PrepareSources(es: seq<Scored>) returns (sources: seq<Source>)
    ensures sources == SourcesOf(es)
  {
    sources := [];
    if es == [] {
      return;
    }
    var maxScore := MaxScore(es);
    var i := 0;
    while i < |es|
      invariant 0 <= i <= |es|
      invariant sources + SourcesWith(es[i..], maxScore) == SourcesWith(es, maxScore)
    {
      assert es[i..][1..] == es[i + 1..];
      var e := es[i];
      sources := sources + [Source(e.content, e.score as real / Divisor(maxScore) as real, e.key, e.score)];
      i := i + 1;
    }
  }

  lemma {:induction false} SourcesWithAt(es: seq<Scored>, maxScore: nat)
    ensures |SourcesWith(es, maxScore)| == |es|
    ensures forall k :: 0 <= k < |es| ==> SourcesWith(es, maxScore)[k] == SourceOf(es[k], maxScore)
  {
    if es != [] {
      SourcesWithAt(es[1..], maxScore);
      assert forall k :: 1 <= k < |es| ==> es[k] == es[1..][k - 1];
    }
  }

  /** One record per entry, in order, carrying the entry's content, key and
      score, and as similarity the score over the largest score. */
  lemma SourcesShape(es: seq<Scored>)
    ensures |SourcesOf(es)| == |es|
    ensures forall k :: 0 <= k < |es| ==>
      var r := SourcesOf(es)[k];
      r.content == es[k].content && r.key == es[k].key && r.relevanceScore == es[k].score &&
      r.similarity == es[k].score as real / Divisor(MaxScore(es)) as real
  {
    if es != [] {
      SourcesWithAt(es, MaxScore(es));
    }
  }

  lemma Ratio(a: nat, d: nat)
    requires 0 < a <= d
    ensures 0.0 < a as real / d as real <= 1.0
  {
    assert a as real <= d as real;
  }

  /** When every score is positive, every similarity lies in (0, 1]. */
  lemma SimilarityInUnit(es: seq<Scored>)
    requires forall k :: 0 <= k < |es| ==> es[k].score > 0
    ensures forall k :: 0 <= k < |SourcesOf(es)| ==> 0.0 < SourcesOf(es)[k].similarity <= 1.0
  {
    SourcesShape(es);
    forall k | 0 <= k < |SourcesOf(es)| ensures 0.0 < SourcesOf(es)[k].similarity <= 1.0 {
      Ratio(es[k].score, Divisor(MaxScore(es)));
    }
  }

  /** On entries sorted by descending score the first record has similarity 1. */
  lemma FirstSourceIsFull(es: seq<Scored>)
    requires NonIncreasing(es) && es != [] && es[0].score > 0
    ensures SourcesOf(es)[0].similarity == 1.0
  {
    var m := MaxScore(es);
    assert m == es[0].score by {
      var k :| 0 <= k < |es| && es[k].score == m;
      assert es[0].score >= es[k].score;
    }
    SourcesWithAt(es, m);
    assert SourcesOf(es)[0] == SourceOf(es[0], m);
    SelfRatio(m);
  }

  lemma SelfRatio(a: nat)
    requires a > 0
    ensures a as real / Divisor(a) as real == 1.0
  {
  }
}
