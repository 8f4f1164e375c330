/** The five answer templates and the fallback, kept as structure: which
    entries each answer uses and which fragments of their text it shows. */
module Answers {
  import opened Strings
  import opened Scoring
  import opened Ranking
  import opened Classification

  /** A related entry shown under the main one: its key and first sentence. */
  datatype Related = Related(key: string, summary: string)

  /** A bulleted list of fragments, a list of fragments numbered from 1, or
      the whole text when no fragment qualifies. */
  datatype Body = Points(items: seq<string>) | Numbered(lines: seq<(nat, string)>) | Whole(text: string)

  /** One headed section: the entry's key and what is shown under it. */
  datatype Section = Section(key: string, body: Body)

  datatype Answer =
    | InvalidPrompt
    | Fallback(query: string)
    | DefinitionAnswer(key: string, concise: string, detail: string, related: seq<Related>)
    | ProcessAnswer(query: string, sections: seq<Section>)
    | ListAnswer(query: string, key: string, body: Body, related: seq<Related>)
    | ExampleAnswer(query: string, sections: seq<Section>)
    | GeneralAnswer(query: string, key: string, summary: seq<string>, detail: string, related: seq<Related>)

  /** Most points a process section shows. */
  const MaxProcessPoints: nat := 5
  /** Most sentences a list answer shows. */
  const MaxKeyPoints: nat := 5
  /** A list sentence or fallback process point must be longer than this. */
  const MinPointLength: nat := 20
  /** Sentences in the summary of a general answer. */
  const SummarySentences: nat := 3

  // ---------------------------------------------------------------------
  // Text fragments

  /** The related summary of an entry: the text before its first '.', followed
      by '.'. Splitting always yields a piece, so the whole-text branch is never
      taken. */
  function FirstSentence(content: string): string {
    var parts := Split(content, '.');
    if |parts| > 0 then parts[0] + "." else content
  }

  /** The concise definition: the match of `^(.*?\.)` (the first line up to and
      including its first '.'), or else the first piece of `split('.')` with a
      '.' added. */
  function ConciseDefinition(content: string): string {
    var dot := Find(content, '.');
    if dot < |content| && dot < Find(content, '\n') then content[..dot + 1]
    else Split(content, '.')[0] + "."
  }

  /** Both ways of extracting the first sentence agree: the text before the
      first '.', followed by '.'. */
  lemma {:induction false} ConciseIsFirstSentence(content: string)
    ensures ConciseDefinition(content) == FirstSentence(content) == content[..Find(content, '.')] + "."
  {
    SplitFirstPiece(content, '.');
    var dot := Find(content, '.');
    if dot < |content| {
      assert content[..dot + 1] == content[..dot] + ".";
    }
  }

  /** Each piece stripped of surrounding whitespace, keeping the non-empty ones
      in order. */
  function NonEmptyStripped(parts: seq<string>): seq<string> {
    if parts == [] then []
    else (if Strip(parts[0]) != [] then [Strip(parts[0])] else []) + NonEmptyStripped(parts[1..])
  }

  /** The pieces longer than 20 characters, in order. */
  function LongOnly(parts: seq<string>): seq<string> {
    if parts == [] then []
    else (if |parts[0]| > MinPointLength then [parts[0]] else []) + LongOnly(parts[1..])
  }

  /** The first n items, or all of them when there are fewer. */
  function Take<T>(s: seq<T>, n: nat): seq<T> {
    s[..Min(n, |s|)]
  }

  /** The sentences of an entry: the non-empty stripped pieces of `split('.')`. */
  function Sentences(content: string): seq<string> {
    NonEmptyStripped(Split(content, '.'))
  }

  /** The points of a process section: the non-empty stripped pieces between
      numbered markers "1.", "2.", ..., or, when every such piece is blank
      (the content is whitespace and markers only), the stripped sentences
      longer than 20 characters. */
  function ProcessPoints(content: string): seq<string> {
    var numbered := NonEmptyStripped(NumberedSplit(content));
    if numbered != [] then numbered
    else LongOnly(Sentences(content))
  }

  /** A non-blank content without any numbered marker is one point: the whole
      content, stripped. */
  lemma MarkerFreeIsOnePoint(content: string)
    requires forall k :: 0 <= k < |content| - 1 ==> !(IsDigit(content[k]) && content[k + 1] == '.')
    requires Strip(content) != []
    ensures ProcessPoints(content) == [Strip(content)]
  {
    NumberedSplitNoMarker(content, 0, 0);
    assert content[0..] == content;
    assert NonEmptyStripped([content]) == [Strip(content)] + NonEmptyStripped([]);
  }

  /** A list answer's points: the first five sentences longer than 20
      characters. */
  function KeyPoints(content: string): seq<string> {
    Take(LongOnly(Sentences(content)), MaxKeyPoints)
  }

  /** `enumerate(s, n)`: each fragment paired with its number, counting from n. */
  function NumberFrom(s: seq<string>, n: nat): seq<(nat, string)> {
    if s == [] then [] else [(n, s[0])] + NumberFrom(s[1..], n + 1)
  }

  lemma {:induction false} NumberFromAt(s: seq<string>, n: nat)
    ensures |NumberFrom(s, n)| == |s|
    ensures forall k :: 0 <= k < |s| ==> NumberFrom(s, n)[k] == (n + k, s[k])
  {
    if s != [] {
      NumberFromAt(s[1..], n + 1);
      assert forall k :: 1 <= k < |s| ==> s[k] == s[1..][k - 1];
    }
  }

  // ---------------------------------------------------------------------
  // Specification of each template

  /** f applied to each item, in order. */
  function Map<A, B>(f: A -> B, s: seq<A>): seq<B> {
    if s == [] then [] else [f(s[0])] + Map(f, s[1..])
  }

  /** The k-th element of the mapped list is f of the k-th element. */
  lemma {:induction false} MapAt<A, B>(f: A -> B, s: seq<A>)
    ensures |Map(f, s)| == |s|
    ensures forall k :: 0 <= k < |s| ==> Map(f, s)[k] == f(s[k])
  {
    if s != [] {
      MapAt(f, s[1..]);
      assert forall k :: 1 <= k < |s| ==> s[k] == s[1..][k - 1];
    }
  }

  /** Mapping distributes over concatenation. */
  lemma {:induction false} MapAppend<A, B>(f: A -> B, a: seq<A>, b: seq<A>)
    ensures Map(f, a + b) == Map(f, a) + Map(f, b)
  {
    if a == [] {
      assert a + b == b;
    } else {
      MapAppend(f, a[1..], b);
      assert a + b != [] && (a + b)[0] == a[0] && (a + b)[1..] == a[1..] + b;
      assert Map(f, a + b) == [f(a[0])] + Map(f, a[1..] + b);
      assert Map(f, a) == [f(a[0])] + Map(f, a[1..]);
    }
  }

  /** Mapping one more element of a prefix appends its image. */
  lemma MapStep<A, B>(f: A -> B, s: seq<A>, i: nat)
    requires i < |s|
    ensures Map(f, s[..i + 1]) == Map(f, s[..i]) + [f(s[i])]
  {
    assert s[..i + 1] == s[..i] + [s[i]];
    MapAppend(f, s[..i], [s[i]]);
  }

  /** One related item: the entry's key and first sentence. */
  function RelatedItem(e: Scored): Related {
    Related(e.key, FirstSentence(e.content))
  }

  function RelatedList(es: seq<Scored>): seq<Related> {
    Map(RelatedItem, es)
  }

  /** The related block: the second and third entries, when there are any. */
  function RelatedOf(entries: seq<Scored>): seq<Related> {
    if |entries| > 1 then RelatedList(entries[1..Min(3, |entries|)]) else []
  }

  function ProcessSection(e: Scored): Section {
    var points := ProcessPoints(e.content);
    if points != [] then Section(e.key, Points(Take(points, MaxProcessPoints)))
    else Section(e.key, Whole(e.content))
  }

  function ProcessSections(es: seq<Scored>): seq<Section> {
    Map(ProcessSection, es)
  }

  /** An example section: the entry's key and its whole text. */
  function ExampleSection(e: Scored): Section {
    Section(e.key, Whole(e.content))
  }

  function ExampleSections(es: seq<Scored>): seq<Section> {
    Map(ExampleSection, es)
  }

  function DefinitionAnswerOf(entries: seq<Scored>): Answer
    requires entries != []
  {
    var top := entries[0];
    DefinitionAnswer(top.key, ConciseDefinition(top.content), top.content, RelatedOf(entries))
  }

  function ProcessAnswerOf(query: string, entries: seq<Scored>): Answer {
    ProcessAnswer(query, ProcessSections(Take(entries, 2)))
  }

  function ListAnswerOf(query: string, entries: seq<Scored>): Answer
    requires entries != []
  {
    var top := entries[0];
    var points := KeyPoints(top.content);
    ListAnswer(query, top.key, if points != [] then Numbered(NumberFrom(points, 1)) else Whole(top.content), RelatedOf(entries))
  }

  function ExampleAnswerOf(query: string, entries: seq<Scored>): Answer {
    ExampleAnswer(query, ExampleSections(Take(entries, 2)))
  }

  function GeneralAnswerOf(query: string, entries: seq<Scored>): Answer
    requires entries != []
  {
    var top := entries[0];
    GeneralAnswer(query, top.key, Take(Sentences(top.content), SummarySentences), top.content, RelatedOf(entries))
  }

  /** The dispatch: the fallback when no entry reaches the threshold, otherwise
      the template of the query's type over the selected entries. */
  function EnhancedAnswer(query: string, scored: seq<Scored>): Answer {
    var selected := Select(scored);
    if selected == [] then Fallback(query)
    else
      match Classify(query)
      case Definition => DefinitionAnswerOf(selected)
      case Process => ProcessAnswerOf(query, selected)
      case List => ListAnswerOf(query, selected)
      case Example => ExampleAnswerOf(query, selected)
      case _ => GeneralAnswerOf(query, selected)
  }

  // ---------------------------------------------------------------------
  // The builders

  /** The loop over `entries[1:3]` shared by three templates. */
  method RelatedSummaries(entries: seq<Scored>) returns (related: seq<Related>)
    ensures related == RelatedOf(entries)
  {
    related := [];
    if |entries| > 1 {
      var rest := entries[1..Min(3, |entries|)];
      var i := 0;
      while i < |rest|
        invariant 0 <= i <= |rest|
        invariant related == RelatedList(rest[..i])
      {
        MapStep(RelatedItem, rest, i);
        related := related + [Related(rest[i].key, FirstSentence(rest[i].content))];
        i := i + 1;
      }
      assert rest[..|rest|] == rest;
    }
  }

  /** The definition template. Its own steps are plain assignments; it is a
      method so that the related block comes from the loop of
      `RelatedSummaries`. */
  method GenerateDefinitionResponse(entries: seq<Scored>) returns (answer: Answer)
    requires entries != []
    ensures answer == DefinitionAnswerOf(entries)
  {
    var top := entries[0];
    var concise := ConciseDefinition(top.content);
    var related := RelatedSummaries(entries);
    answer := DefinitionAnswer(top.key, concise, top.content, related);
  }

  /** The inner loop of the process template: `for point in points[:5]`. */
  method FirstPoints(points: seq<string>) returns (bullets: seq<string>)
    ensures bullets == Take(points, MaxProcessPoints)
  {
    bullets := [];
    var j := 0;
    while j < |points| && j < MaxProcessPoints
      invariant 0 <= j <= Min(MaxProcessPoints, |points|)
      invariant bullets == points[..j]
    {
      bullets := bullets + [points[j]];
      j := j + 1;
    }
  }

  /** One pass of the outer loop: the heading of an entry and its first five
      points, or its whole text when it has none. It is a method so that the
      points come from the loop of `FirstPoints`. */
  method GenerateProcessSection(e: Scored) returns (section: Section)
    ensures section == ProcessSection(e)
  {
    var points := ProcessPoints(e.content);
    if points == [] {
      section := Section(e.key, Whole(e.content));
    } else {
      var bullets := FirstPoints(points);
      section := Section(e.key, Points(bullets));
    }
  }

  method GenerateProcessResponse(query: string, entries: seq<Scored>) returns (answer: Answer)
    ensures answer == ProcessAnswerOf(query, entries)
  {
    var shown := Take(entries, 2);
    var sections: seq<Section> := [];
    var i := 0;
    while i < |shown|
      invariant 0 <= i <= |shown|
      invariant sections == ProcessSections(shown[..i])
    {
      MapStep(ProcessSection, shown, i);
      var section := GenerateProcessSection(shown[i]);
      sections := sections + [section];
      i := i + 1;
    }
    assert shown[..|shown|] == shown;
    answer := ProcessAnswer(query, sections);
  }

  /** The numbering loop of the list template: `enumerate(key_points, 1)`. */
  method NumberPoints(points: seq<string>) returns (numbered: seq<(nat, string)>)
    ensures numbered == NumberFrom(points, 1)
  {
    numbered := [];
    var i := 0;
    while i < |points|
      invariant 0 <= i <= |points|
      invariant numbered + NumberFrom(points[i..], i + 1) == NumberFrom(points, 1)
    {
      assert points[i..][1..] == points[i + 1..];
      numbered := numbered + [(i + 1, points[i])];
      i := i + 1;
    }
  }

  method GenerateListResponse(query: string, entries: seq<Scored>) returns (answer: Answer)
    requires entries != []
    ensures answer == ListAnswerOf(query, entries)
  {
    var top := entries[0];
    var keyPoints := KeyPoints(top.content);
    var body: Body;
    if keyPoints != [] {
      var numbered := NumberPoints(keyPoints);
      body := Numbered(numbered);
    } else {
      body := Whole(top.content);
    }
    var related := RelatedSummaries(entries);
    answer := ListAnswer(query, top.key, body, related);
  }

  method GenerateExampleResponse(query: string, entries: seq<Scored>) returns (answer: Answer)
    ensures answer == ExampleAnswerOf(query, entries)
  {
    var shown := Take(entries, 2);
    var sections: seq<Section> := [];
    var i := 0;
    while i < |shown|
      invariant 0 <= i <= |shown|
      invariant sections == ExampleSections(shown[..i])
    {
      MapStep(ExampleSection, shown, i);
      sections := sections + [Section(shown[i].key, Whole(shown[i].content))];
      i := i + 1;
    }
    assert shown[..|shown|] == shown;
    answer := ExampleAnswer(query, sections);
  }

  /** The general template. Like the definition template, it is a method so
      that the related block comes from the loop of `RelatedSummaries`. */
  method GenerateGeneralResponse(query: string, entries: seq<Scored>) returns (answer: Answer)
    requires entries != []
    ensures answer == GeneralAnswerOf(query, entries)
  {
    var top := entries[0];
    var summary := Take(Sentences(top.content), SummarySentences);
    var related := RelatedSummaries(entries);
    answer := GeneralAnswer(query, top.key, summary, top.content, related);
  }

  /** The threshold, the confidence and the dispatch. */
  method GenerateEnhancedResponse(query: string, scored: seq<Scored>) returns (answer: Answer, confidence: real)
    ensures answer == EnhancedAnswer(query, scored)
    ensures confidence == Confidence(scored)
  {
    var selected := Select(scored);
    if selected == [] {
      return Fallback(query), 0.0;
    }
    var queryType := Classify(query);
    var topScore := selected[0].score;
    confidence := RealMin(1.0, topScore as real / FullConfidenceScore);
    match queryType {
      case Definition => answer := GenerateDefinitionResponse(selected);
      case Process => answer := GenerateProcessResponse(query, selected);
      case List => answer := GenerateListResponse(query, selected);
      case Example => answer := GenerateExampleResponse(query, selected);
      case _ => answer := GenerateGeneralResponse(query, selected);
    }
  }

  // ---------------------------------------------------------------------
  // What the templates show

  lemma RelatedListShape(es: seq<Scored>)
    ensures |RelatedList(es)| == |es|
    ensures forall k :: 0 <= k < |es| ==>
      RelatedList(es)[k] == Related(es[k].key, FirstSentence(es[k].content))
  {
    MapAt(RelatedItem, es);
  }

  /** The related block lists the second and third entries (as many of them as
      exist), each with its key and first sentence. */
  lemma RelatedOfShape(entries: seq<Scored>)
    ensures |RelatedOf(entries)| == if |entries| <= 1 then 0 else Min(2, |entries| - 1)
    ensures forall k :: 0 <= k < |RelatedOf(entries)| ==>
      RelatedOf(entries)[k] == Related(entries[k + 1].key, entries[k + 1].content[..Find(entries[k + 1].content, '.')] + ".")
  {
    if |entries| > 1 {
      var rest := entries[1..Min(3, |entries|)];
      RelatedListShape(rest);
      forall k | 0 <= k < |rest|
        ensures FirstSentence(rest[k].content) == entries[k + 1].content[..Find(entries[k + 1].content, '.')] + "."
      {
        ConciseIsFirstSentence(rest[k].content);
      }
    }
  }

  lemma ProcessSectionsShape(es: seq<Scored>)
    ensures |ProcessSections(es)| == |es|
    ensures forall k :: 0 <= k < |es| ==> ProcessSections(es)[k] == ProcessSection(es[k])
  {
    MapAt(ProcessSection, es);
  }

  /** A process answer has one section per entry among the first two, in
      order; each shows at most five non-empty points, or else the entry's
      whole text. */
  lemma ProcessAnswerShape(query: string, entries: seq<Scored>)
    ensures var a := ProcessAnswerOf(query, entries);
      |a.sections| == Min(2, |entries|) &&
      forall k :: 0 <= k < |a.sections| ==>
        a.sections[k].key == entries[k].key &&
        (a.sections[k].body.Points? ==>
          0 < |a.sections[k].body.items| <= MaxProcessPoints &&
          forall j :: 0 <= j < |a.sections[k].body.items| ==> a.sections[k].body.items[j] != []) &&
        (a.sections[k].body.Whole? ==>
          a.sections[k].body.text == entries[k].content && ProcessPoints(entries[k].content) == [])
  {
    var shown := Take(entries, 2);
    ProcessSectionsShape(shown);
    forall k | 0 <= k < |shown|
      ensures var p := ProcessPoints(shown[k].content);
        forall j :: 0 <= j < |p| ==> p[j] != []
    {
      ProcessPointsNonEmpty(shown[k].content);
    }
  }

  /** Every point of a process section has some text. */
  lemma ProcessPointsNonEmpty(c: string)
    ensures forall j :: 0 <= j < |ProcessPoints(c)| ==> ProcessPoints(c)[j] != []
  {
    var numbered := NonEmptyStripped(NumberedSplit(c));
    var p := ProcessPoints(c);
    forall j | 0 <= j < |p| ensures p[j] != [] {
      if numbered != [] {
        NonEmptyStrippedFrom(NumberedSplit(c), p[j]);
      } else {
        LongOnlySubsequence(NonEmptyStripped(Split(c, '.')), p[j]);
        NonEmptyStrippedFrom(Split(c, '.'), p[j]);
      }
    }
  }

  lemma {:induction false} LongOnlySubsequence(parts: seq<string>, s: string)
    requires s in LongOnly(parts)
    ensures s in parts && |s| > MinPointLength
  {
    if parts != [] && !(|parts[0]| > MinPointLength && s == parts[0]) {
      LongOnlySubsequence(parts[1..], s);
    }
  }

  lemma {:induction false} NonEmptyStrippedFrom(parts: seq<string>, s: string)
    requires s in NonEmptyStripped(parts)
    ensures s != [] && exists p :: p in parts && s == Strip(p)
  {
    if parts != [] && !(Strip(parts[0]) != [] && s == Strip(parts[0])) {
      NonEmptyStrippedFrom(parts[1..], s);
      var p :| p in parts[1..] && s == Strip(p);
      assert p in parts;
    }
  }

  /** A list answer shows at most five points, numbered from 1, each a stripped sentence of the
      top entry longer than 20 characters; with no such sentence it shows the
      entry's whole text. */
  lemma ListAnswerShape(query: string, entries: seq<Scored>)
    requires entries != []
    ensures var a := ListAnswerOf(query, entries);
      a.key == entries[0].key && a.related == RelatedOf(entries) &&
      !a.body.Points? &&
      (a.body.Numbered? ==>
        0 < |a.body.lines| <= MaxKeyPoints &&
        forall j :: 0 <= j < |a.body.lines| ==>
          a.body.lines[j].0 == j + 1 &&
          |a.body.lines[j].1| > MinPointLength &&
          exists p :: p in Split(entries[0].content, '.') && a.body.lines[j].1 == Strip(p)) &&
      (a.body.Whole? ==> a.body.text == entries[0].content && LongOnly(Sentences(entries[0].content)) == [])
  {
    var c := entries[0].content;
    var long := LongOnly(Sentences(c));
    var points := KeyPoints(c);
    NumberFromAt(points, 1);
    forall j | 0 <= j < |points|
      ensures |points[j]| > MinPointLength && exists p :: p in Split(c, '.') && points[j] == Strip(p)
    {
      assert points[j] in long;
      LongOnlySubsequence(Sentences(c), points[j]);
      NonEmptyStrippedFrom(Split(c, '.'), points[j]);
    }
  }

  lemma ExampleSectionsShape(es: seq<Scored>)
    ensures |ExampleSections(es)| == |es|
    ensures forall k :: 0 <= k < |es| ==> ExampleSections(es)[k] == Section(es[k].key, Whole(es[k].content))
  {
    MapAt(ExampleSection, es);
  }

  /** An example answer shows the first two entries verbatim, in order. */
  lemma ExampleAnswerShape(query: string, entries: seq<Scored>)
    ensures var a := ExampleAnswerOf(query, entries);
      |a.sections| == Min(2, |entries|) &&
      forall k :: 0 <= k < |a.sections| ==> a.sections[k] == Section(entries[k].key, Whole(entries[k].content))
  {
    ExampleSectionsShape(Take(entries, 2));
  }

  /** A definition answer leads with the top entry: its first sentence, then its
      whole text, then the related block. */
  lemma DefinitionAnswerShape(entries: seq<Scored>)
    requires entries != []
    ensures var a := DefinitionAnswerOf(entries);
      a.key == entries[0].key && a.detail == entries[0].content &&
      a.concise == entries[0].content[..Find(entries[0].content, '.')] + "." &&
      '.' !in a.concise[..|a.concise| - 1] &&
      a.related == RelatedOf(entries)
  {
    var c := entries[0].content;
    ConciseIsFirstSentence(c);
    var a := DefinitionAnswerOf(entries);
    assert a.concise[..|a.concise| - 1] == c[..Find(c, '.')];
  }

  /** A general answer's summary is the first three non-empty sentences of
      the top entry. */
  lemma GeneralAnswerShape(query: string, entries: seq<Scored>)
    requires entries != []
    ensures var a := GeneralAnswerOf(query, entries);
      a.key == entries[0].key && a.detail == entries[0].content &&
      |a.summary| == Min(SummarySentences, |Sentences(entries[0].content)|) &&
      (forall j :: 0 <= j < |a.summary| ==> a.summary[j] == Sentences(entries[0].content)[j] && a.summary[j] != []) &&
      a.related == RelatedOf(entries)
  {
    var c := entries[0].content;
    forall j | 0 <= j < Min(SummarySentences, |Sentences(c)|) ensures Sentences(c)[j] != [] {
      NonEmptyStrippedFrom(Split(c, '.'), Sentences(c)[j]);
    }
  }

  function RelatedKey(r: Related): string { r.key }

  function SectionKey(s: Section): string { s.key }

  /** The keys of the entries an answer shows, the main entry first. */
  function ShownKeys(a: Answer): seq<string> {
    match a
    case DefinitionAnswer(key, _, _, related) => [key] + Map(RelatedKey, related)
    case ListAnswer(_, key, _, related) => [key] + Map(RelatedKey, related)
    case GeneralAnswer(_, key, _, _, related) => [key] + Map(RelatedKey, related)
    case ProcessAnswer(_, sections) => Map(SectionKey, sections)
    case ExampleAnswer(_, sections) => Map(SectionKey, sections)
    case _ => []
  }

  /** How many leading entries a template shows: two for the process and
      example templates, three (the main entry and two related) otherwise. */
  function Width(t: QueryType): nat {
    if t == Process || t == Example then 2 else 3
  }

  /** keys are the keys of the first `width` entries (or of all of them, when
      there are fewer), in order. */
  predicate ShowsLeading(keys: seq<string>, entries: seq<Scored>, width: nat) {
    |keys| == Min(width, |entries|) && forall j :: 0 <= j < |keys| ==> keys[j] == entries[j].key
  }

  /** A main entry followed by the related block shows the first three
      entries. */
  lemma RelatedKeys(key: string, entries: seq<Scored>)
    requires entries != [] && key == entries[0].key
    ensures ShowsLeading([key] + Map(RelatedKey, RelatedOf(entries)), entries, 3)
  {
    RelatedOfShape(entries);
    MapAt(RelatedKey, RelatedOf(entries));
  }

  /** Headed sections built from the first two entries show those two. */
  lemma SectionKeys(a: Answer, entries: seq<Scored>)
    requires a.ProcessAnswer? || a.ExampleAnswer?
    requires |a.sections| == Min(2, |entries|)
    requires forall k :: 0 <= k < |a.sections| ==> a.sections[k].key == entries[k].key
    ensures ShowsLeading(ShownKeys(a), entries, 2)
  {
    MapAt(SectionKey, a.sections);
  }

  lemma DefinitionKeys(entries: seq<Scored>)
    requires entries != []
    ensures ShowsLeading(ShownKeys(DefinitionAnswerOf(entries)), entries, 3)
  {
    RelatedKeys(entries[0].key, entries);
  }

  lemma ListKeys(query: string, entries: seq<Scored>)
    requires entries != []
    ensures ShowsLeading(ShownKeys(ListAnswerOf(query, entries)), entries, 3)
  {
    RelatedKeys(entries[0].key, entries);
  }

  lemma GeneralKeys(query: string, entries: seq<Scored>)
    requires entries != []
    ensures ShowsLeading(ShownKeys(GeneralAnswerOf(query, entries)), entries, 3)
  {
    RelatedKeys(entries[0].key, entries);
  }

  lemma ProcessKeys(query: string, entries: seq<Scored>)
    ensures ShowsLeading(ShownKeys(ProcessAnswerOf(query, entries)), entries, 2)
  {
    ProcessAnswerShape(query, entries);
    SectionKeys(ProcessAnswerOf(query, entries), entries);
  }

  lemma ExampleKeys(query: string, entries: seq<Scored>)
    ensures ShowsLeading(ShownKeys(ExampleAnswerOf(query, entries)), entries, 2)
  {
    ExampleAnswerShape(query, entries);
    SectionKeys(ExampleAnswerOf(query, entries), entries);
  }

  /** An answer built from the selected entries shows the first three of them
      (the first two for a process or example answer), in ranking order. */
  lemma ShownKeysOfSelected(query: string, scored: seq<Scored>)
    requires Select(scored) != []
    ensures ShowsLeading(ShownKeys(EnhancedAnswer(query, scored)), Select(scored), Width(Classify(query)))
  {
    var selected := Select(scored);
    EnhancedAnswerDispatch(query, scored);
    match Classify(query)
    case Definition =>
      DefinitionKeys(selected);
    case Process =>
      ProcessKeys(query, selected);
    case List =>
      ListKeys(query, selected);
    case Example =>
      ExampleKeys(query, selected);
    case General =>
      GeneralKeys(query, selected);
    case Invalid =>
      assert false;
  }

  /** Over entries sorted by descending score, an answer that is not the
      fallback shows one to three of the leading entries, all above the
      threshold, in order. */
  lemma ShownKeysOfSorted(query: string, ranked: seq<Scored>)
    requires NonIncreasing(ranked) && Select(ranked) != []
    ensures var keys := ShownKeys(EnhancedAnswer(query, ranked));
      1 <= |keys| <= 3 && |keys| <= |ranked| &&
      forall j :: 0 <= j < |keys| ==> keys[j] == ranked[j].key && ranked[j].score >= MinThreshold
  {
    var n := SelectPrefix(ranked);
    ShownKeysOfSelected(query, ranked);
  }

  /** The answer shape follows the query type once some entry reaches the
      threshold; with none it is the fallback. Every template is built from the
      selected entries only. */
  lemma EnhancedAnswerDispatch(query: string, scored: seq<Scored>)
    ensures var a := EnhancedAnswer(query, scored);
      var selected := Select(scored);
      (a.Fallback? <==> selected == []) &&
      (selected != [] ==>
        match Classify(query)
        case Definition => a == DefinitionAnswerOf(selected)
        case Process => a == ProcessAnswerOf(query, selected)
        case List => a == ListAnswerOf(query, selected)
        case Example => a == ExampleAnswerOf(query, selected)
        case _ => a == GeneralAnswerOf(query, selected))
  {
  }
}
