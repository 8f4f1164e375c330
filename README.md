# StudSAR lexical engine in Dafny

This project models `StudSAREngine`, the lexical retrieval engine of the
StudSAR civil-service assistant. The engine holds an ordered knowledge base of
key → text entries and a history of the queries it has accepted. For each
query it does the following:

1. It rejects a query that is empty or not a string.
2. It records the query in the history.
3. It lowercases the query and fixes common typos with a fixed replacement
   table.
4. It tokenises the query into word tokens.
5. It scores every entry with an integer heuristic: a phrase bonus, a token
   overlap term, a key-word bonus and a semantic-group bonus.
6. It keeps the entries that score above zero and stable-sorts them by
   descending score.
7. It selects the entries scoring at least 10 and derives a confidence from
   the top score.
8. It classifies the query by first-matching phrase rules.
9. It builds one of five answer templates, or the fallback answer.
10. It returns the ranked entries as sources with normalised similarities.

The modules follow the steps:

- `Strings`: the Python string builtins the engine relies on, on ASCII text
  (see "Left out"). These are `lower`, `in`, `replace`, `split`, `strip`,
  `re.findall(r'\w+')` and `re.split(r'\d+\.')`.
- `Typos`: the replacement table and its loop.
- `Scoring`: entry scores, the semantic groups and the scoring loop.
- `Ranking`: the stable descending sort, the threshold selection and the
  confidence.
- `Classification`: the query-type rules.
- `Answers`: the templates, as structure. Each answer records which entries
  it shows and which fragments of their text. It does not record the
  Markdown wording.
- `Sources`: the source records.
- `Engine`: the `StudSarEngine` class with its history, the pure `Respond`
  function that its `Query` method is proved against, and the end-to-end
  properties of a response.

Two behaviours of the code are reproduced as written. First, the first typo
key, "ivil service", also occurs inside the correct spelling. A correctly
spelled "civil service" is therefore scored as "ccivil service"
(`Typos.CorrectSpellingIsAltered`, `Engine.CivilServiceScoredAltered`).
Second, the query type and the answer template are chosen from the original
query text, not the typo-fixed one.

## Model

| member | source | states |
|---|---|---|
| Engine.StudSarEngine.constructor | studsar-civil-service-ai-assistant/studsar_rag.py:9-12 | the engine keeps the knowledge base it is given and starts with an empty history |
| Engine.StudSarEngine.Query | studsar-civil-service-ai-assistant/studsar_rag.py:44-82 | the result equals `Respond` on the engine's knowledge base; an accepted query appends its original text to the history exactly once, and a rejected one leaves the history unchanged |
| Engine.StudSarEngine.GetQueryHistory | studsar-civil-service-ai-assistant/studsar_rag.py:345-347 | returns a value equal to the history |
| Engine.StudSarEngine.ClearHistory | studsar-civil-service-ai-assistant/studsar_rag.py:349-351 | the history is empty afterwards |
| Engine.Respond | studsar-civil-service-ai-assistant/studsar_rag.py:44-82 | the response of a query, as a function of the knowledge base and the argument; `Query` is proved equal to it and the lemmas below state its properties |
| Engine.RespondInvalid | studsar-civil-service-ai-assistant/studsar_rag.py:46-52 | an empty or non-string query gets the invalid prompt, no sources, confidence 0.0 and type invalid; type invalid occurs only for such a query; otherwise the type is the classification of the original text |
| Engine.ValidQuery | studsar-civil-service-ai-assistant/studsar_rag.py:46 | defines the accepted query, a string that is not empty; `RespondInvalid` states that every other argument gets the invalid response |
| Engine.CivilServiceScoredAltered | studsar-civil-service-ai-assistant/studsar_rag.py:54-60 | the text scored for the query "civil service" is "ccivil service" |
| Engine.FixedQuery | studsar-civil-service-ai-assistant/studsar_rag.py:54-60 | defines the scored text, the query lowercased and then typo-fixed; `CivilServiceScoredAltered` shows it on "civil service" |
| Engine.Ranked | studsar-civil-service-ai-assistant/studsar_rag.py:60-69 | defines the ranking, the scored entries of the fixed text sorted by descending score; `RankedMembers`, `RankedOrder`, `RankedPositive`, `RankedTopIsBest` and `RankedFromKb` state its properties |
| Engine.RankedMembers | studsar-civil-service-ai-assistant/studsar_rag.py:60-69 | an entry is in the ranking exactly when it is some knowledge-base entry rated against the fixed query with a positive score |
| Engine.RankedOrder | studsar-civil-service-ai-assistant/studsar_rag.py:66-69 | the ranking is non-increasing by score, a permutation of the scored list, and keeps the scored list's order among entries with equal scores |
| Engine.RankedTopIsBest | studsar-civil-service-ai-assistant/studsar_rag.py:66-69 | the first ranked entry scores at least as much as every knowledge-base entry |
| Engine.RankedFromKb | studsar-civil-service-ai-assistant/studsar_rag.py:66-69 | every ranked entry is the rating of a knowledge-base entry with the same key |
| Engine.RankedPositive | studsar-civil-service-ai-assistant/studsar_rag.py:127-128 | every ranked entry has a positive score |
| Engine.RespondFallback | studsar-civil-service-ai-assistant/studsar_rag.py:171-175 | the answer is the fallback exactly when no knowledge-base entry scores at least 10, and the confidence is 0.0 exactly then |
| Engine.RespondConfidence | studsar-civil-service-ai-assistant/studsar_rag.py:177-180 | otherwise the confidence is min(1, s/30) for the score s of a best-scoring knowledge-base entry, and lies in [1/3, 1] |
| Engine.RespondShownEntries | studsar-civil-service-ai-assistant/studsar_rag.py:171-192 | a non-fallback answer shows one to three knowledge-base entries, each scoring at least 10, and its main entry is a knowledge-base entry of the largest score |
| Engine.RespondSources | studsar-civil-service-ai-assistant/studsar_rag.py:326-343 | one source per ranked entry, in ranking order, with its content, key and score; every similarity is in (0, 1], and the first is 1 |
| Typos.FixTypos | studsar-civil-service-ai-assistant/studsar_rag.py:84-100 | the loop's result is the eight pairs applied in table order, each replacing every occurrence left to right |
| Typos.ApplyFixes | studsar-civil-service-ai-assistant/studsar_rag.py:97-98 | defines the table applied in order, each pair replacing every occurrence in the text left by the pairs before it; `FixTypos` is proved equal to it |
| Typos.ApplyFixesAbsent | studsar-civil-service-ai-assistant/studsar_rag.py:97-98 | a text containing none of the typos comes back unchanged |
| Typos.CorrectSpellingIsAltered | studsar-civil-service-ai-assistant/studsar_rag.py:86-98 | the table turns the correct "civil service" into "ccivil service" |
| Scoring.CalculateSemanticRelevance | studsar-civil-service-ai-assistant/studsar_rag.py:132-150 | the loop's result is the sum over the six groups of the group bonus |
| Scoring.GroupBonus | studsar-civil-service-ai-assistant/studsar_rag.py:145-148 | defines one group's bonus; `GroupBonusIsMin` states it is 2·min of the hit counts |
| Scoring.SemanticScore | studsar-civil-service-ai-assistant/studsar_rag.py:143-150 | defines the sum of the group bonuses; `SemanticSymmetric` and `SemanticZeroWithoutHits` state its properties |
| Scoring.GroupBonusIsMin | studsar-civil-service-ai-assistant/studsar_rag.py:145-148 | each group adds 2·min of the query's and the content's hits in it, so a group missed by either side adds nothing |
| Scoring.SemanticSymmetric | studsar-civil-service-ai-assistant/studsar_rag.py:143-150 | the semantic bonus is the same with query and content words swapped |
| Scoring.SemanticZeroWithoutHits | studsar-civil-service-ai-assistant/studsar_rag.py:143-150 | a query that hits no group gets no semantic bonus |
| Scoring.KeyWords | studsar-civil-service-ai-assistant/studsar_rag.py:120 | defines the key's words as the set of pieces of the lowercased key split on '_'; `KeyTokenScores` states what a match earns |
| Scoring.KeyMatch | studsar-civil-service-ai-assistant/studsar_rag.py:120-121 | defines the key match, some query token among the key's pieces; `KeyTokenScores` states what it earns |
| Scoring.EntryScore | studsar-civil-service-ai-assistant/studsar_rag.py:107-125 | defines an entry's score as 20·[query in content] + 3·(shared tokens) + 10·[key match] + semantic bonus; `SharedTokenScores` and `KeyTokenScores` state its lower bounds |
| Scoring.RateEntry | studsar-civil-service-ai-assistant/studsar_rag.py:107-125 | the loop body's step-by-step sum equals the entry score |
| Scoring.ScoreAll | studsar-civil-service-ai-assistant/studsar_rag.py:104-130 | defines the rated entries with positive score in knowledge-base order; `ScoreEntries` is proved equal to it and `ScoreAllMembers`, `ScoreAllAppend`, `ScoreAllPositive` state its properties |
| Scoring.Rate | studsar-civil-service-ai-assistant/studsar_rag.py:127-128 | defines the (score, content, key) record of an entry; `ScoreAllMembers` states that an entry is kept exactly when this score is positive |
| Scoring.ScoreEntries | studsar-civil-service-ai-assistant/studsar_rag.py:102-130 | the loop's result is the rated entries with positive score, in knowledge-base order, each scored 20·[phrase] + 3·overlap + 10·[key match] + semantic bonus |
| Scoring.ScoreAllMembers | studsar-civil-service-ai-assistant/studsar_rag.py:106-128 | an entry is kept exactly when its score is positive, and it is kept with that score |
| Scoring.ScoreAllAppend | studsar-civil-service-ai-assistant/studsar_rag.py:106-128 | entries kept from a first part of the knowledge base come before those kept from the rest |
| Scoring.ScoreAllPositive | studsar-civil-service-ai-assistant/studsar_rag.py:127-128 | every kept entry has a positive score |
| Scoring.SharedTokenScores | studsar-civil-service-ai-assistant/studsar_rag.py:115-117 | a query token that also occurs in the content gives an entry at least 3 points |
| Scoring.KeyTokenScores | studsar-civil-service-ai-assistant/studsar_rag.py:120-122 | a query token among the key's words gives an entry at least 10 points |
| Ranking.SortDescendingSorted | studsar-civil-service-ai-assistant/studsar_rag.py:69 | the sorted list is non-increasing by score and a permutation of the input |
| Ranking.SortDescendingStable | studsar-civil-service-ai-assistant/studsar_rag.py:69 | for every score, the entries with that score keep their input order |
| Ranking.SortDescendingUnique | studsar-civil-service-ai-assistant/studsar_rag.py:69 | any non-increasing rearrangement that keeps every score's entries in input order is the sorted list |
| Ranking.SortDescending | studsar-civil-service-ai-assistant/studsar_rag.py:69 | defines the stable descending sort; `SortDescendingSorted`, `SortDescendingStable` and `SortDescendingUnique` state that it is sorted, a permutation, stable and determined by these |
| Ranking.SelectEmptyIff | studsar-civil-service-ai-assistant/studsar_rag.py:171-174 | nothing is selected exactly when every score is below 10 |
| Ranking.Select | studsar-civil-service-ai-assistant/studsar_rag.py:172 | the selection is no longer than its input and every selected entry scores at least 10 |
| Ranking.SelectFromInput | studsar-civil-service-ai-assistant/studsar_rag.py:172 | every selected entry is an entry of the input |
| Ranking.SelectPrefix | studsar-civil-service-ai-assistant/studsar_rag.py:172 | on a sorted list the selected entries are the prefix of entries scoring at least 10 |
| Ranking.MaxScore | studsar-civil-service-ai-assistant/studsar_rag.py:332 | the result bounds every score and is attained by some entry |
| Ranking.ConfidenceOfSorted | studsar-civil-service-ai-assistant/studsar_rag.py:174-180 | on a sorted list the confidence is 0.0 when nothing is selected, else min(1, max score/30), which lies in [1/3, 1] |
| Ranking.Confidence | studsar-civil-service-ai-assistant/studsar_rag.py:174-180 | the confidence lies in [0, 1] and is 0.0 exactly when nothing is selected |
| Classification.Classify | studsar-civil-service-ai-assistant/studsar_rag.py:152-167 | a classified query is never typed invalid |
| Classification.AnyInIff | studsar-civil-service-ai-assistant/studsar_rag.py:156 | the ordered `any` over a phrase list holds exactly when some phrase of the list occurs in the query |
| Classification.AnyIn | studsar-civil-service-ai-assistant/studsar_rag.py:156 | defines the ordered phrase test; `AnyInIff` states that it holds exactly when some phrase of the list occurs |
| Classification.ClassifyFirstMatch | studsar-civil-service-ai-assistant/studsar_rag.py:154-167 | each type is chosen exactly when one of its phrases occurs in the lowercased query and none of an earlier rule does; otherwise the query is general |
| Classification.ClassifyIgnoresCase | studsar-civil-service-ai-assistant/studsar_rag.py:154 | classification does not depend on letter case |
| Classification.ClassifyWhatIs | studsar-civil-service-ai-assistant/studsar_rag.py:156-157 | "What is the Civil Service?" is a definition query |
| Classification.ClassifyHowDo | studsar-civil-service-ai-assistant/studsar_rag.py:158-159 | "How do" is a process query |
| Answers.GenerateEnhancedResponse | studsar-civil-service-ai-assistant/studsar_rag.py:169-194 | returns the answer of the dispatch specification and `Confidence` of the scored list |
| Answers.EnhancedAnswer | studsar-civil-service-ai-assistant/studsar_rag.py:169-192 | defines the dispatch: the fallback when nothing is selected, otherwise the template of the query's type over the selected entries; `GenerateEnhancedResponse` is proved equal to it |
| Answers.ShownKeysOfSelected | studsar-civil-service-ai-assistant/studsar_rag.py:172-192 | the answer built from the selected entries shows the first three of them, or the first two for a process or example query, in order |
| Answers.ShownKeysOfSorted | studsar-civil-service-ai-assistant/studsar_rag.py:171-192 | over entries sorted by descending score, a non-fallback answer shows one to three leading entries, each scoring at least 10 |
| Answers.GenerateDefinitionResponse | studsar-civil-service-ai-assistant/studsar_rag.py:196-217 | returns the definition answer of the selected entries |
| Answers.DefinitionAnswerShape | studsar-civil-service-ai-assistant/studsar_rag.py:198-214 | the definition answer shows the top entry's key, its text up to and including the first '.', which contains no other '.', its whole text, and the related block |
| Answers.DefinitionAnswerOf | studsar-civil-service-ai-assistant/studsar_rag.py:196-217 | defines the definition template over the selected entries; `GenerateDefinitionResponse` is proved equal to it and `DefinitionAnswerShape` states its content |
| Answers.RelatedOf | studsar-civil-service-ai-assistant/studsar_rag.py:209-214 | defines the related block over the second and third entries; `RelatedSummaries` is proved equal to it and `RelatedOfShape` states its content |
| Answers.ConciseDefinition | studsar-civil-service-ai-assistant/studsar_rag.py:202-203 | defines the concise definition; `ConciseIsFirstSentence` states that it is the text before the first '.' followed by '.' |
| Answers.FirstSentence | studsar-civil-service-ai-assistant/studsar_rag.py:213 | defines the related summary; `ConciseIsFirstSentence` states that it is the text before the first '.' followed by '.' |
| Answers.ConciseIsFirstSentence | studsar-civil-service-ai-assistant/studsar_rag.py:202-203 | the regex match and the `split('.')` fallback both give the text before the first '.' followed by '.' |
| Answers.RelatedSummaries | studsar-civil-service-ai-assistant/studsar_rag.py:209-214 | the loop's result is the related block of the entries |
| Answers.RelatedOfShape | studsar-civil-service-ai-assistant/studsar_rag.py:209-214 | the related block lists the second and third entries, as many as exist, each with its key and its text up to the first '.' followed by '.' |
| Answers.RelatedListShape | studsar-civil-service-ai-assistant/studsar_rag.py:211-214 | one related item per entry, in order, with the entry's key and first sentence |
| Answers.GenerateProcessResponse | studsar-civil-service-ai-assistant/studsar_rag.py:219-238 | returns the process answer of the entries |
| Answers.GenerateProcessSection | studsar-civil-service-ai-assistant/studsar_rag.py:224-234 | one entry's section is its first five points, or its whole text when it has none |
| Answers.ProcessSection | studsar-civil-service-ai-assistant/studsar_rag.py:223-235 | defines one process section, the entry's key with its first five points or else its whole text; `GenerateProcessSection` is proved equal to it and `ProcessAnswerShape` states its form |
| Answers.FirstPoints | studsar-civil-service-ai-assistant/studsar_rag.py:231-232 | the loop keeps the first five points |
| Answers.ProcessSectionsShape | studsar-civil-service-ai-assistant/studsar_rag.py:223 | one section per entry, in order |
| Answers.ProcessAnswerShape | studsar-civil-service-ai-assistant/studsar_rag.py:223-234 | one section for each of the first two entries, in order; each shows 1 to 5 non-empty points, or else the entry's whole text when it has no points |
| Answers.ProcessAnswerOf | studsar-civil-service-ai-assistant/studsar_rag.py:219-238 | defines the process template, one section for each of the first two entries; `GenerateProcessResponse` is proved equal to it and `ProcessSectionsShape` and `ProcessAnswerShape` state its form |
| Answers.ProcessPointsNonEmpty | studsar-civil-service-ai-assistant/studsar_rag.py:226-228 | every point of a process section, numbered piece or fallback sentence, is non-empty |
| Answers.ProcessPoints | studsar-civil-service-ai-assistant/studsar_rag.py:226-228 | defines a section's points: the non-empty stripped pieces between numbered markers, or, when there are none, the stripped sentences longer than 20 characters; `ProcessPointsNonEmpty` and `MarkerFreeIsOnePoint` state its properties |
| Answers.MarkerFreeIsOnePoint | studsar-civil-service-ai-assistant/studsar_rag.py:226-227 | a non-blank text without a digit followed by '.' is one point, the whole text stripped; the sentence fallback does not apply to it |
| Answers.NonEmptyStrippedFrom | studsar-civil-service-ai-assistant/studsar_rag.py:226 | every kept piece is non-empty and is the strip of some piece of the split |
| Answers.Sentences | studsar-civil-service-ai-assistant/studsar_rag.py:248 | defines an entry's sentences, the non-empty stripped pieces of its text split at '.', used by the list points and the general summary; `NonEmptyStrippedFrom` states that each is non-empty and the strip of a piece, and `GeneralAnswerShape` how many the summary keeps |
| Answers.LongOnlySubsequence | studsar-civil-service-ai-assistant/studsar_rag.py:249 | every kept sentence is one of the inputs and is longer than 20 characters |
| Answers.GenerateListResponse | studsar-civil-service-ai-assistant/studsar_rag.py:240-265 | returns the list answer of the entries |
| Answers.NumberPoints | studsar-civil-service-ai-assistant/studsar_rag.py:252-253 | the loop numbers the points from 1 |
| Answers.NumberFromAt | studsar-civil-service-ai-assistant/studsar_rag.py:252 | the k-th numbered point is (n + k, the k-th point) |
| Answers.ListAnswerShape | studsar-civil-service-ai-assistant/studsar_rag.py:244-262 | the list answer shows the top entry's key, 1 to 5 lines numbered from 1, each a stripped sentence of the top entry longer than 20 characters, or else its whole text when no sentence qualifies, and the related block |
| Answers.ListAnswerOf | studsar-civil-service-ai-assistant/studsar_rag.py:240-265 | defines the list template over the selected entries; `GenerateListResponse` is proved equal to it and `ListAnswerShape` states its content |
| Answers.KeyPoints | studsar-civil-service-ai-assistant/studsar_rag.py:248-249 | defines a list answer's points, the first five stripped sentences longer than 20 characters; `ListAnswerShape` states their form |
| Answers.GenerateExampleResponse | studsar-civil-service-ai-assistant/studsar_rag.py:267-276 | returns the example answer of the entries |
| Answers.ExampleSectionsShape | studsar-civil-service-ai-assistant/studsar_rag.py:271-273 | one section per entry showing its key and whole text |
| Answers.ExampleAnswerShape | studsar-civil-service-ai-assistant/studsar_rag.py:271-273 | the example answer shows the first two entries verbatim, in order |
| Answers.ExampleAnswerOf | studsar-civil-service-ai-assistant/studsar_rag.py:267-276 | defines the example template, the first two entries shown whole; `GenerateExampleResponse` is proved equal to it and `ExampleAnswerShape` states its content |
| Answers.GenerateGeneralResponse | studsar-civil-service-ai-assistant/studsar_rag.py:278-299 | returns the general answer of the entries |
| Answers.GeneralAnswerShape | studsar-civil-service-ai-assistant/studsar_rag.py:280-296 | the general answer shows the top entry's key, its first three non-empty stripped sentences as summary, its whole text, and the related block |
| Answers.GeneralAnswerOf | studsar-civil-service-ai-assistant/studsar_rag.py:278-299 | defines the general template over the selected entries; `GenerateGeneralResponse` is proved equal to it and `GeneralAnswerShape` states its content |
| Sources.PrepareSources | studsar-civil-service-ai-assistant/studsar_rag.py:326-343 | the loop's result is the source records of the entries |
| Sources.SourcesOf | studsar-civil-service-ai-assistant/studsar_rag.py:326-343 | defines the source records; `PrepareSources` is proved equal to it and `SourcesShape`, `SimilarityInUnit`, `FirstSourceIsFull` state their form |
| Sources.SourceOf | studsar-civil-service-ai-assistant/studsar_rag.py:334-341 | defines one source record, the entry's content, key and score with the score over the divisor as similarity; `SourcesShape` states that each record is this one |
| Sources.SourcesShape | studsar-civil-service-ai-assistant/studsar_rag.py:332-341 | one record per entry, in order, with its content, key and score, and the score over max(1, largest score) as similarity |
| Sources.SimilarityInUnit | studsar-civil-service-ai-assistant/studsar_rag.py:332-337 | with positive scores every similarity lies in (0, 1] |
| Sources.FirstSourceIsFull | studsar-civil-service-ai-assistant/studsar_rag.py:332-337 | on entries sorted by descending score the first similarity is 1 |
| Sources.Divisor | studsar-civil-service-ai-assistant/studsar_rag.py:337 | the divisor is at least 1 and at least the largest score |
| Strings.Lower | studsar-civil-service-ai-assistant/studsar_rag.py:54 | lowercasing keeps the length and maps each character to its lowercase form |
| Strings.LowerIdempotent | studsar-civil-service-ai-assistant/studsar_rag.py:54 | lowercasing twice is lowercasing once |
| Strings.ContainsAt | studsar-civil-service-ai-assistant/studsar_rag.py:111 | an occurrence at some position makes `in` hold |
| Strings.ContainsIndex | studsar-civil-service-ai-assistant/studsar_rag.py:111 | conversely, a contained substring occurs at some position |
| Strings.ContainsIff | studsar-civil-service-ai-assistant/studsar_rag.py:111 | `in` holds exactly when the substring occurs at some position |
| Strings.Contains | studsar-civil-service-ai-assistant/studsar_rag.py:111 | defines `in`; `ContainsIff` states its meaning |
| Strings.ContainsChars | studsar-civil-service-ai-assistant/studsar_rag.py:111 | every character of a contained substring occurs in the string |
| Strings.ReplaceAllAbsent | studsar-civil-service-ai-assistant/studsar_rag.py:98 | `replace` of an absent substring changes nothing |
| Strings.ReplaceAllSelf | studsar-civil-service-ai-assistant/studsar_rag.py:98 | replacing a substring by itself changes nothing |
| Strings.ReplaceAll | studsar-civil-service-ai-assistant/studsar_rag.py:98 | defines `replace` scanning left to right; `ReplaceAllAbsent` and `ReplaceAllSelf` state its properties |
| Strings.Split | studsar-civil-service-ai-assistant/studsar_rag.py:120 | a split has at least one piece |
| Strings.JoinSplit | studsar-civil-service-ai-assistant/studsar_rag.py:120 | re-joining the pieces of a split gives back the string |
| Strings.SplitPiecesFree | studsar-civil-service-ai-assistant/studsar_rag.py:248 | no piece of a split contains the separator |
| Strings.Find | studsar-civil-service-ai-assistant/studsar_rag.py:202 | the result is the first index of the character, or the length when it is absent |
| Strings.SplitFirstPiece | studsar-civil-service-ai-assistant/studsar_rag.py:213 | the first piece of a split is the text before the first separator |
| Strings.StripShape | studsar-civil-service-ai-assistant/studsar_rag.py:248 | a stripped string is a contiguous piece s[i..j] of the input, everything before i and from j on is whitespace, and the piece neither starts nor ends with whitespace |
| Strings.Strip | studsar-civil-service-ai-assistant/studsar_rag.py:248 | defines `strip`; `StripShape` states its meaning |
| Strings.WordRun | studsar-civil-service-ai-assistant/studsar_rag.py:63 | the result is the length of the maximal run of word characters at the start |
| Strings.FindWordsShape | studsar-civil-service-ai-assistant/studsar_rag.py:63 | every token found is a non-empty run of word characters |
| Strings.FindWordsSound | studsar-civil-service-ai-assistant/studsar_rag.py:63 | each word found is a maximal run of word characters of the text |
| Strings.FindWordsComplete | studsar-civil-service-ai-assistant/studsar_rag.py:63 | each maximal run of word characters of the text is found |
| Strings.TokensIff | studsar-civil-service-ai-assistant/studsar_rag.py:63 | a string is a token of the text exactly when it is a maximal run of word characters at some position |
| Strings.FindWords | studsar-civil-service-ai-assistant/studsar_rag.py:63 | defines `re.findall(r'\w+')`; `FindWordsSound` and `FindWordsComplete` state its meaning |
| Strings.Tokens | studsar-civil-service-ai-assistant/studsar_rag.py:63 | defines the token set; `TokensIff` states its meaning |
| Strings.DigitRun | studsar-civil-service-ai-assistant/studsar_rag.py:226 | the digit run starting at a position stays inside the string |
| Strings.MarkerAt | studsar-civil-service-ai-assistant/studsar_rag.py:226 | a numbered marker starting at a position stays inside the string |
| Strings.NumberedSplitFrom | studsar-civil-service-ai-assistant/studsar_rag.py:226 | a split on numbered markers has at least one piece |
| Strings.NumberedSplitNoMarker | studsar-civil-service-ai-assistant/studsar_rag.py:226 | a text with no digit followed by '.' is not split by the numbered markers: the one piece is the whole text |
| Strings.NumberedSplit | studsar-civil-service-ai-assistant/studsar_rag.py:226 | defines `re.split(r'\d+\.')`; `NumberedSplitNoMarker` states that a marker-free text is one piece |

## Left out

- Loading the knowledge base from a JSON file and the built-in default table
  (`studsar_rag.py:14-42`) are file I/O and constant data. The constructor
  takes the loaded knowledge base as a sequence of (key, text) pairs in
  dictionary order.
- The `k` parameter of `query` is never used by the code, so it is not
  modelled.
- The Markdown wording of the answers is not modelled. This covers the
  headings, bullets, the "retrieved from" footer and the fixed text of the
  fallback and invalid answers. It also covers the `key.replace('_', ' ').title()`
  titles: answers and sources carry the key instead.
- The general template's join of its summary sentences with spaces and its
  trailing '.' is not modelled. `Answers.GeneralAnswer` keeps the sentences
  themselves.
- Python's string functions are modelled on ASCII text only. Unicode `\w`,
  `str.lower` and `str.isspace` are not modelled.
- Scores are Python floats built from whole numbers (20, 3·n, 10, 2·min).
  They are modelled as `nat`. Confidence and similarity are modelled as exact
  `real` ratios, so float rounding is not modelled.
- A query argument that is not a string is modelled as `Engine.NotText`. The
  Python type check is not modelled beyond that.
- `Answers.ConciseDefinition`: the regex `^(.*?\.)` is modelled by its
  meaning, the first line up to and including its first '.'. The regex
  engine itself is not modelled.
- `Ranking.SortDescending`: Python's `list.sort` is a library routine, so it
  is modelled as a function (a stable insertion sort). Its in-place update of
  the list is not modelled.
- The Streamlit front end (`app.py`) and the example scripts are user
  interface and demonstration code.
- The vector connector (`src/rag/rag_connector.py`) is a thin wrapper over an
  embedding model and floating-point cosine similarity.
- The marker manager and neural model modules are not part of this model.
