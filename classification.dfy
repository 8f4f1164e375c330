/** Sorting a query into one of the answer shapes by first-matching phrase
    rules. */
module Classification {
  import opened Strings

  datatype QueryType = Definition | Process | List | Example | General | Invalid

  const DefinitionPhrases: seq<string> := ["what is", "define", "definition", "meaning of"]
  const ProcessPhrases: seq<string> := ["how to", "how do", "steps", "process", "procedure", "guide"]
  const ListPhrases: seq<string> := ["list", "principles", "values", "requirements", "key points", "features"]
  const ExamplePhrases: seq<string> := ["example", "template", "format", "sample", "structure"]
  /** The last rule's phrases; matching them gives the same result as no match. */
  const GeneralPhrases: seq<string> := ["tell me about", "explain", "describe"]

  /** Some phrase of the list occurs in q, the phrases being tried in list order. */
  predicate AnyIn(phrases: seq<string>, q: string)
    decreases |phrases|
  {
    phrases != [] && (Contains(q, phrases[0]) || AnyIn(phrases[1..], q))
  }

  /** Some phrase of the list occurs in q. */
  predicate HasPhrase(q: string, phrases: seq<string>) {
    exists k :: 0 <= k < |phrases| && Contains(q, phrases[k])
  }

  lemma {:induction false} AnyInIff(phrases: seq<string>, q: string)
    ensures AnyIn(phrases, q) <==> HasPhrase(q, phrases)
    decreases |phrases|
  {
    if phrases != [] {
      AnyInIff(phrases[1..], q);
      if HasPhrase(q, phrases) && !Contains(q, phrases[0]) {
        var k :| 0 <= k < |phrases| && Contains(q, phrases[k]);
        assert phrases[1..][k - 1] == phrases[k];
      }
      if HasPhrase(q, phrases[1..]) {
        var k :| 0 <= k < |phrases[1..]| && Contains(q, phrases[1..][k]);
        assert phrases[k + 1] == phrases[1..][k];
      }
    }
  }

  /** The rules on the lowercased query, first match wins. */
  function Classify(query: string): (t: QueryType)
    ensures t != Invalid
  {
    var q := Lower(query);
    if AnyIn(DefinitionPhrases, q) then Definition
    else if AnyIn(ProcessPhrases, q) then Process
    else if AnyIn(ListPhrases, q) then List
    else if AnyIn(ExamplePhrases, q) then Example
    else if AnyIn(GeneralPhrases, q) then General
    else General
  }

  /** Each shape is chosen exactly when one of its phrases occurs in the
      lowercased query and no phrase of an earlier rule does; otherwise the
      query is general. */
  lemma ClassifyFirstMatch(query: string)
    ensures var q := Lower(query);
      (Classify(query) == Definition <==> HasPhrase(q, DefinitionPhrases)) &&
      (Classify(query) == Process <==>
        !HasPhrase(q, DefinitionPhrases) && HasPhrase(q, ProcessPhrases)) &&
      (Classify(query) == List <==>
        !HasPhrase(q, DefinitionPhrases) && !HasPhrase(q, ProcessPhrases) && HasPhrase(q, ListPhrases)) &&
      (Classify(query) == Example <==>
        !HasPhrase(q, DefinitionPhrases) && !HasPhrase(q, ProcessPhrases) && !HasPhrase(q, ListPhrases) &&
        HasPhrase(q, ExamplePhrases)) &&
      (Classify(query) == General <==>
        !HasPhrase(q, DefinitionPhrases) && !HasPhrase(q, ProcessPhrases) && !HasPhrase(q, ListPhrases) &&
        !HasPhrase(q, ExamplePhrases))
  {
    var q := Lower(query);
    AnyInIff(DefinitionPhrases, q);
    AnyInIff(ProcessPhrases, q);
    AnyInIff(ListPhrases, q);
    AnyInIff(ExamplePhrases, q);
  }

  /** Classification ignores letter case. */
  lemma ClassifyIgnoresCase(query: string)
    ensures Classify(Lower(query)) == Classify(query)
  {
    LowerIdempotent(query);
  }

  /** "What is the Civil Service?" asks for a definition. */
  lemma ClassifyWhatIs(query: string)
    requires query == "What is the Civil Service?"
    ensures Classify(query) == Definition
  {
    var q := Lower(query);
    forall i | 0 <= i < 7 ensures q[i] == "what is"[i] {
    }
    assert q[..7] == "what is";
    ContainsAt(q, "what is", 0);
    AnyInIff(DefinitionPhrases, q);
    assert Contains(q, DefinitionPhrases[0]);
  }

  /** "how do" belongs to the process rule. */
  lemma ClassifyHowDo(query: string)
    requires query == "How do"
    ensures Classify(query) == Process
  {
    var q := Lower(query);
    assert q == "how do";
    assert !Contains(q[1..], "define");
    assert q[..6] != "define" by { assert q[0] != 'd'; }
    AnyInIff(DefinitionPhrases, q);
    forall k | 0 <= k < |DefinitionPhrases| ensures !Contains(q, DefinitionPhrases[k]) {
    }
    assert Contains(q, ProcessPhrases[1]) by { assert q[..6] == "how do"; }
    AnyInIff(ProcessPhrases, q);
  }
}
