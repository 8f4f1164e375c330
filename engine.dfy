/** The engine object: it answers queries against its knowledge base and keeps
    the history of the queries it accepted. */
module Engine {
  import opened Strings
  import opened Typos
  import opened Scoring
  import opened Ranking
  import opened Classification
  import opened Answers
  import opened Sources

  /** What a caller passes as the query: a string, or a value of another type. */
  datatype QueryArg = Text(text: string) | NotText

  /** A query is answered only when it is a non-empty string. */
  predicate ValidQuery(arg: QueryArg) {
    arg.Text? && arg.text != []
  }

  /** The four parts of the result of a query. */
  datatype Response = Response(answer: Answer, sources: seq<Source>, confidence: real, queryType: QueryType)

  const InvalidResponse: Response := Response(InvalidPrompt, [], 0.0, Invalid)

  /** The text that is scored: lowercased, then typo-fixed. */
  function FixedQuery(text: string): string {
    ApplyFixes(Lower(text), Fixes)
  }

  /** The scored entries, sorted by descending score. */
  function Ranked(kb: seq<(string, string)>, text: string): seq<Scored> {
    var q := FixedQuery(text);
    SortDescending(ScoreAll(kb, q, Tokens(q)))
  }

  /** The result of a query. The answer template and the query type are chosen
      from the original text; only the scoring sees the fixed text. */
  function Respond(kb: seq<(string, string)>, arg: QueryArg): Response {
    if !ValidQuery(arg) then InvalidResponse
    else
      var ranked := Ranked(kb, arg.text);
      Response(EnhancedAnswer(arg.text, ranked), SourcesOf(ranked), Confidence(ranked), Classify(arg.text))
  }

  class StudSarEngine {
    /** The knowledge base as loaded, in its key order. */
    const knowledgeBase: seq<(string, string)>
    var queryHistory: seq<string>

    /** An engine over an already loaded knowledge base, with no history. */
    constructor (kb: seq<(string, string)>)
      ensures knowledgeBase == kb && queryHistory == []
    {
      knowledgeBase := kb;
      queryHistory := [];
    }

    /** Answers one query; an accepted query is appended to the history before
        it is answered, a rejected one leaves the history as it was. */
    method Query(arg: QueryArg) returns (r: Response)
      modifies this
      ensures r == Respond(knowledgeBase, arg)
      ensures queryHistory == if ValidQuery(arg) then old(queryHistory) + [arg.text] else old(queryHistory)
    {
      if !ValidQuery(arg) {
        return InvalidResponse;
      }
      var text := arg.text;
      var queryLower := Lower(text);
      queryHistory := queryHistory + [text];
      queryLower := FixTypos(queryLower);
      var queryWords := Tokens(queryLower);
      var scored := ScoreEntries(knowledgeBase, queryLower, queryWords);
      scored := SortDescending(scored);
      var answer, confidence := GenerateEnhancedResponse(text, scored);
      var sources := PrepareSources(scored);
      r := Response(answer, sources, confidence, Classify(text));
    }

    /** A copy of the history, oldest query first. */
    method GetQueryHistory() returns (h: seq<string>)
      ensures h == queryHistory
    {
      h := queryHistory;
    }

    method ClearHistory()
      modifies this
      ensures queryHistory == []
    {
      queryHistory := [];
    }
  }

  // ---------------------------------------------------------------------
  // What a response says

  /** A rejected query gets the fixed invalid response, and only a rejected
      query is reported as invalid. */
  lemma RespondInvalid(kb: seq<(string, string)>, arg: QueryArg)
    ensures !ValidQuery(arg) ==> Respond(kb, arg) == InvalidResponse
    ensures Respond(kb, arg).queryType == Invalid <==> !ValidQuery(arg)
    ensures ValidQuery(arg) ==> Respond(kb, arg).queryType == Classify(arg.text)
  {
  }

  /** Scoring sees a correctly spelled "civil service" query as
      "ccivil service", so the phrase bonus looks for the altered text. */
  lemma CivilServiceScoredAltered(text: string)
    requires text == "civil service"
    ensures FixedQuery(text) == "ccivil service"
  {
    LowerOfCivilService(text);
    CorrectSpellingIsAltered(Lower(text));
  }

  lemma LowerOfCivilService(text: string)
    requires text == "civil service"
    ensures Lower(text) == text
  {
    LowerOfLowercase(text);
  }

  /** The entries kept for a query are those of the scored list. */
  lemma RankedMembers(kb: seq<(string, string)>, text: string, x: Scored)
    ensures var q := FixedQuery(text);
      x in Ranked(kb, text) <==> x.score > 0 && exists e :: e in kb && x == Rate(q, Tokens(q), e)
  {
    var q := FixedQuery(text);
    var all := ScoreAll(kb, q, Tokens(q));
    SortDescendingSorted(all);
    assert x in Ranked(kb, text) <==> x in multiset(all);
    ScoreAllMembers(kb, q, Tokens(q), x);
  }

  lemma RankedSorted(kb: seq<(string, string)>, text: string)
    ensures NonIncreasing(Ranked(kb, text))
  {
    var q := FixedQuery(text);
    SortDescendingSorted(ScoreAll(kb, q, Tokens(q)));
  }

  /** The ranking is sorted by descending score, holds exactly the entries with
      a positive score, and keeps knowledge-base order among equal scores. */
  lemma RankedOrder(kb: seq<(string, string)>, text: string)
    ensures var q := FixedQuery(text);
      var all := ScoreAll(kb, q, Tokens(q));
      NonIncreasing(Ranked(kb, text)) &&
      multiset(Ranked(kb, text)) == multiset(all) &&
      (forall v :: WithScore(Ranked(kb, text), v) == WithScore(all, v))
  {
    var q := FixedQuery(text);
    var all := ScoreAll(kb, q, Tokens(q));
    SortDescendingSorted(all);
    forall v ensures WithScore(Ranked(kb, text), v) == WithScore(all, v) {
      SortDescendingStable(all, v);
    }
  }

  lemma RankedPositive(kb: seq<(string, string)>, text: string)
    ensures forall k :: 0 <= k < |Ranked(kb, text)| ==> Ranked(kb, text)[k].score > 0
  {
    var ranked := Ranked(kb, text);
    forall k | 0 <= k < |ranked| ensures ranked[k].score > 0 {
      RankedMembers(kb, text, ranked[k]);
    }
  }

  /** The fallback answer is given, and the confidence is 0, exactly when no
      entry of the knowledge base reaches the threshold. */
  lemma RespondFallback(kb: seq<(string, string)>, arg: QueryArg)
    requires ValidQuery(arg)
    ensures var q := FixedQuery(arg.text);
      var r := Respond(kb, arg);
      (r.answer.Fallback? <==> forall e :: e in kb ==> Rate(q, Tokens(q), e).score < MinThreshold) &&
      (r.confidence == 0.0 <==> r.answer.Fallback?)
  {
    var text := arg.text;
    var q := FixedQuery(text);
    var ranked := Ranked(kb, text);
    RankedOrder(kb, text);
    SelectEmptyIff(ranked);
    ConfidenceOfSorted(ranked);
    EnhancedAnswerDispatch(text, ranked);
    if Select(ranked) == [] {
      forall e | e in kb ensures Rate(q, Tokens(q), e).score < MinThreshold {
        RankedMembers(kb, text, Rate(q, Tokens(q), e));
      }
    } else {
      var k :| 0 <= k < |ranked| && ranked[k].score >= MinThreshold;
      RankedMembers(kb, text, ranked[k]);
    }
  }

  /** When some entry reaches the threshold the confidence is the best entry
      score over 30, capped at 1, and lies between 1/3 and 1. */
  lemma RespondConfidence(kb: seq<(string, string)>, arg: QueryArg)
    requires ValidQuery(arg)
    requires !Respond(kb, arg).answer.Fallback?
    ensures var q := FixedQuery(arg.text);
      var c := Respond(kb, arg).confidence;
      1.0 / 3.0 <= c <= 1.0 &&
      exists e :: e in kb && c == RealMin(1.0, Rate(q, Tokens(q), e).score as real / FullConfidenceScore) &&
        forall e' :: e' in kb ==> Rate(q, Tokens(q), e').score <= Rate(q, Tokens(q), e).score
  {
    var text := arg.text;
    var q := FixedQuery(text);
    var ranked := Ranked(kb, text);
    RankedOrder(kb, text);
    ConfidenceOfSorted(ranked);
    EnhancedAnswerDispatch(text, ranked);
    var m := MaxScore(ranked);
    var k :| 0 <= k < |ranked| && ranked[k].score == m;
    RankedMembers(kb, text, ranked[k]);
    var e :| e in kb && ranked[k] == Rate(q, Tokens(q), e);
    forall e' | e' in kb ensures Rate(q, Tokens(q), e').score <= m {
      var y := Rate(q, Tokens(q), e');
      if y.score > 0 {
        RankedMembers(kb, text, y);
        var j :| 0 <= j < |ranked| && ranked[j] == y;
      }
    }
  }

  /** Each ranked entry is the rating of a knowledge-base entry with the same
      key. */
  lemma RankedFromKb(kb: seq<(string, string)>, text: string, j: nat)
    requires j < |Ranked(kb, text)|
    ensures var q := FixedQuery(text);
      exists e :: e in kb && e.0 == Ranked(kb, text)[j].key && Rate(q, Tokens(q), e) == Ranked(kb, text)[j]
  {
    var q := FixedQuery(text);
    RankedMembers(kb, text, Ranked(kb, text)[j]);
    var e :| e in kb && Ranked(kb, text)[j] == Rate(q, Tokens(q), e);
  }

  /** The first ranked entry has the largest score of any knowledge-base
      entry. */
  lemma RankedTopIsBest(kb: seq<(string, string)>, text: string)
    requires Ranked(kb, text) != []
    ensures var q := FixedQuery(text);
      forall e :: e in kb ==> Rate(q, Tokens(q), e).score <= Ranked(kb, text)[0].score
  {
    var q := FixedQuery(text);
    var ranked := Ranked(kb, text);
    RankedSorted(kb, text);
    forall e | e in kb ensures Rate(q, Tokens(q), e).score <= ranked[0].score {
      var y := Rate(q, Tokens(q), e);
      if y.score > 0 {
        RankedMembers(kb, text, y);
        var j :| 0 <= j < |ranked| && ranked[j] == y;
        HeadIsMax(ranked, j);
      }
    }
  }

  /** key is the key of a knowledge-base entry that reaches the threshold for
      the scored text q. */
  predicate KeyReaches(kb: seq<(string, string)>, q: string, key: string) {
    exists e :: e in kb && e.0 == key && Rate(q, Tokens(q), e).score >= MinThreshold
  }

  /** The shown keys are one to three keys of knowledge-base entries that
      reach the threshold for the scored text q. */
  predicate ReachThreshold(kb: seq<(string, string)>, q: string, keys: seq<string>) {
    1 <= |keys| <= 3 && forall j :: 0 <= j < |keys| ==> KeyReaches(kb, q, keys[j])
  }

  /** The first shown key is that of an entry of the largest score. */
  predicate LeadsWithBest(kb: seq<(string, string)>, q: string, keys: seq<string>) {
    keys != [] &&
    exists e :: e in kb && e.0 == keys[0] &&
      forall e' :: e' in kb ==> Rate(q, Tokens(q), e').score <= Rate(q, Tokens(q), e).score
  }

  /** A non-fallback answer shows one to three knowledge-base entries, each
      scoring at least the threshold, and leads with an entry of the largest
      score. */
  lemma RespondShownEntries(kb: seq<(string, string)>, arg: QueryArg)
    requires ValidQuery(arg)
    requires !Respond(kb, arg).answer.Fallback?
    ensures var keys := ShownKeys(Respond(kb, arg).answer);
      ReachThreshold(kb, FixedQuery(arg.text), keys) && LeadsWithBest(kb, FixedQuery(arg.text), keys)
  {
    var text := arg.text;
    var ranked := Ranked(kb, text);
    assert Respond(kb, arg).answer == EnhancedAnswer(text, ranked);
    EnhancedAnswerDispatch(text, ranked);
    ShownReachThreshold(kb, text);
    ShownLeadsWithBest(kb, text);
  }

  lemma ShownReachThreshold(kb: seq<(string, string)>, text: string)
    requires Select(Ranked(kb, text)) != []
    ensures ReachThreshold(kb, FixedQuery(text), ShownKeys(EnhancedAnswer(text, Ranked(kb, text))))
  {
    RankedSorted(kb, text);
    ShownKeysOfSorted(text, Ranked(kb, text));
    LeadingKeysReachThreshold(kb, text, ShownKeys(EnhancedAnswer(text, Ranked(kb, text))));
  }

  /** Keys of leading ranked entries that reach the threshold are keys of
      knowledge-base entries that reach it. */
  lemma LeadingKeysReachThreshold(kb: seq<(string, string)>, text: string, keys: seq<string>)
    requires 1 <= |keys| <= 3 && |keys| <= |Ranked(kb, text)|
    requires forall j :: 0 <= j < |keys| ==>
      keys[j] == Ranked(kb, text)[j].key && Ranked(kb, text)[j].score >= MinThreshold
    ensures ReachThreshold(kb, FixedQuery(text), keys)
  {
    var q := FixedQuery(text);
    var ranked := Ranked(kb, text);
    forall j | 0 <= j < |keys| ensures KeyReaches(kb, q, keys[j]) {
      RankedFromKb(kb, text, j);
      var e :| e in kb && e.0 == ranked[j].key && Rate(q, Tokens(q), e) == ranked[j];
      assert Rate(q, Tokens(q), e).score >= MinThreshold;
    }
  }

  lemma ShownLeadsWithBest(kb: seq<(string, string)>, text: string)
    requires Select(Ranked(kb, text)) != []
    ensures LeadsWithBest(kb, FixedQuery(text), ShownKeys(EnhancedAnswer(text, Ranked(kb, text))))
  {
    var q := FixedQuery(text);
    var ranked := Ranked(kb, text);
    RankedSorted(kb, text);
    ShownKeysOfSorted(text, ranked);
    RankedFromKb(kb, text, 0);
    var top :| top in kb && top.0 == ranked[0].key && Rate(q, Tokens(q), top) == ranked[0];
    RankedTopIsBest(kb, text);
  }

  /** One source per kept entry, in ranking order, carrying its score; every
      similarity lies in (0, 1] and the first is 1. */
  lemma RespondSources(kb: seq<(string, string)>, arg: QueryArg)
    requires ValidQuery(arg)
    ensures var ranked := Ranked(kb, arg.text);
      var s := Respond(kb, arg).sources;
      |s| == |ranked| &&
      (forall k :: 0 <= k < |s| ==>
        s[k].relevanceScore == ranked[k].score && s[k].content == ranked[k].content &&
        s[k].key == ranked[k].key && 0.0 < s[k].similarity <= 1.0) &&
      (s != [] ==> s[0].similarity == 1.0)
  {
    var ranked := Ranked(kb, arg.text);
    RankedOrder(kb, arg.text);
    RankedPositive(kb, arg.text);
    SourcesShape(ranked);
    SimilarityInUnit(ranked);
    if ranked != [] {
      FirstSourceIsFull(ranked);
    }
  }
}
