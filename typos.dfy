/** The fixed typo-correction table and its sequential application. */
module Typos {
  import opened Strings

  /** The correction table, in the order its pairs are applied. */
  const Fixes: seq<(string, string)> := [
    ("ivil service", "civil service"),
    ("cvil service", "civil service"),
    ("minsterial", "ministerial"),
    ("breifing", "briefing"),
    ("goverment", "government"),
    ("parliment", "parliament"),
    ("equalty", "equality"),
    ("devlution", "devolution")
  ]

  predicate NonEmptyKeys(table: seq<(string, string)>) {
    forall k :: 0 <= k < |table| ==> |table[k].0| > 0
  }

  /** Each pair of the table, in order, replaces every occurrence of its typo
      in the text produced by the pairs before it. */
  function ApplyFixes(s: string, table: seq<(string, string)>): string
    requires NonEmptyKeys(table)
    decreases |table|
  {
    if table == [] then s
    else ApplyFixes(ReplaceAll(s, table[0].0, table[0].1), table[1..])
  }

  /** The loop over the table: its result is the table applied in order. */
  method FixTypos(query: string) returns (r: string)
    ensures r == ApplyFixes(query, Fixes)
  {
    r := query;
    var i := 0;
    while i < |Fixes|
      invariant 0 <= i <= |Fixes|
      invariant ApplyFixes(r, Fixes[i..]) == ApplyFixes(query, Fixes)
    {
      assert Fixes[i..][1..] == Fixes[i + 1..];
      r := ReplaceAll(r, Fixes[i].0, Fixes[i].1);
      i := i + 1;
    }
  }

  /** A text in which no typo of the table occurs comes back unchanged. */
  lemma {:induction false} ApplyFixesAbsent(s: string, table: seq<(string, string)>)
    requires NonEmptyKeys(table)
    requires forall k :: 0 <= k < |table| ==> !Contains(s, table[k].0)
    ensures ApplyFixes(s, table) == s
  {
    if table != [] {
      ReplaceAllAbsent(s, table[0].0, table[0].1);
      ApplyFixesAbsent(s, table[1..]);
    }
  }

  /** The first typo, "ivil service", also occurs inside the correct spelling,
      so a correctly spelled "civil service" comes out as "ccivil service". */
  lemma CorrectSpellingIsAltered(q: string)
    requires q == "civil service"
    ensures ApplyFixes(q, Fixes) == "ccivil service"
  {
    var s := ReplaceAll(q, Fixes[0].0, Fixes[0].1);
    FirstFixDoublesC(q, s);
    NoLaterTypo(s);
    ApplyFixesAbsent(s, Fixes[1..]);
  }

  lemma FirstFixDoublesC(q: string, s: string)
    requires q == "civil service" && s == ReplaceAll(q, "ivil service", "civil service")
    ensures s == "ccivil service"
  {
    var o := "ivil service";
    var n := "civil service";
    assert q[..12][0] != o[0];
    assert q[1..] == o;
    assert o[12..] == [];
    assert ReplaceAll(o, o, n) == n;
    assert s == [q[0]] + ReplaceAll(q[1..], o, n);
  }

  /** None of the typos after the first occurs in "ccivil service". */
  lemma NoLaterTypo(s: string)
    requires s == "ccivil service"
    ensures forall k :: 0 <= k < |Fixes[1..]| ==> !Contains(s, Fixes[1..][k].0)
  {
    var rest := Fixes[1..];
    forall k | 0 <= k < |rest| ensures !Contains(s, rest[k].0) {
      if k == 0 {
        CvilAbsent(s);
      } else {
        // each later typo holds a letter that "ccivil service" lacks
        var c := ['m', 'b', 'g', 'p', 'q', 'd'][k - 1];
        MissingCharAbsent(s, rest[k].0, c);
      }
    }
  }

  lemma CvilAbsent(s: string)
    requires s == "ccivil service"
    ensures !Contains(s, "cvil service")
  {
    var p := "cvil service";
    assert s[1..][..12][1] != p[1];
    assert s[2] != p[0];
    assert s[..12][1] != p[1];
    assert !Contains(s[3..], p);
    assert !Contains(s[2..], p);
    assert !Contains(s[1..], p);
  }

  /** A text lacking one of p's characters does not contain p. */
  lemma MissingCharAbsent(s: string, p: string, c: char)
    requires c in p && c !in s
    ensures !Contains(s, p)
  {
    if Contains(s, p) { ContainsChars(s, p, c); }
  }
}
