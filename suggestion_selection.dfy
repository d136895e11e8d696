/** Which suggestion the apply-all-safe-suggestions session applies next: the `SAFE`
    suggestions of the list, stably sorted by line (`_.sortBy`), and the first of them. */
module SuggestionSelection {
  import opened Wrappers

  /** A suggestion as the language server returns it (the fields the session reads). */
  datatype Suggestion = Suggestion(id: string, suggestionLine: nat, safetyLevel: string, actionLabel: string)

  predicate IsSafe(s: Suggestion) {
    s.safetyLevel == "SAFE"
  }

  /** `suggestions.filter((suggestion) => suggestion.safetyLevel === "SAFE")` */
  function SafeSuggestions(suggestions: seq<Suggestion>): (safe: seq<Suggestion>)
    ensures |safe| <= |suggestions|
    ensures forall s :: s in safe ==> IsSafe(s) && s in suggestions
    ensures forall s :: s in suggestions && IsSafe(s) ==> s in safe
  {
    if |suggestions| == 0 then []
    else if IsSafe(suggestions[0]) then [suggestions[0]] + SafeSuggestions(suggestions[1..])
    else SafeSuggestions(suggestions[1..])
  }

  /** Inserting into a list sorted by line: after the elements with a smaller line, before
      those with the same or a larger one. */
  function InsertByLine(x: Suggestion, sorted: seq<Suggestion>): (r: seq<Suggestion>)
    ensures |r| == |sorted| + 1
    ensures multiset(r) == multiset(sorted) + multiset{x}
    ensures forall k :: 0 <= k < |r| ==> r[k] == x || r[k] in sorted
  {
    if |sorted| == 0 then [x]
    else if x.suggestionLine <= sorted[0].suggestionLine then [x] + sorted
    else
      assert sorted == [sorted[0]] + sorted[1..];
      [sorted[0]] + InsertByLine(x, sorted[1..])
  }

  /** `_.sortBy(suggestions, (finding) => finding.suggestionLine)`: a stable sort by line.
      Each element is inserted in front of the later elements with the same line, so
      elements with equal lines keep their order. */
  function SortByLine(suggestions: seq<Suggestion>): (sorted: seq<Suggestion>)
    ensures |sorted| == |suggestions|
    ensures multiset(sorted) == multiset(suggestions)
  {
    if |suggestions| == 0 then []
    else
      assert suggestions == [suggestions[0]] + suggestions[1..];
      InsertByLine(suggestions[0], SortByLine(suggestions[1..]))
  }

  predicate SortedByLine(xs: seq<Suggestion>) {
    forall i, j :: 0 <= i < j < |xs| ==> xs[i].suggestionLine <= xs[j].suggestionLine
  }

  lemma {:induction false} InsertByLineSorted(x: Suggestion, sorted: seq<Suggestion>)
    requires SortedByLine(sorted)
    ensures SortedByLine(InsertByLine(x, sorted))
    decreases |sorted|
  {
    if |sorted| > 0 && x.suggestionLine > sorted[0].suggestionLine {
      var rest := InsertByLine(x, sorted[1..]);
      InsertByLineSorted(x, sorted[1..]);
      forall k | 0 <= k < |rest| ensures sorted[0].suggestionLine <= rest[k].suggestionLine {
        if rest[k] != x {
          var m :| 0 <= m < |sorted[1..]| && sorted[1..][m] == rest[k];
          assert sorted[m + 1] == rest[k];
        }
      }
    }
  }

  /** The stable sort is a sort: its result is ordered by line and is a permutation. */
  lemma {:induction false} SortByLineSorted(suggestions: seq<Suggestion>)
    ensures SortedByLine(SortByLine(suggestions))
    decreases |suggestions|
  {
    if |suggestions| > 0 {
      SortByLineSorted(suggestions[1..]);
      InsertByLineSorted(suggestions[0], SortByLine(suggestions[1..]));
    }
  }

  /** The first element of the stable sort of `[x] + rest`: `x` unless `rest` holds a
      strictly smaller line. */
  lemma SortByLineHead(x: Suggestion, rest: seq<Suggestion>)
    requires |rest| > 0
    ensures SortByLine([x] + rest)[0]
         == if x.suggestionLine <= SortByLine(rest)[0].suggestionLine then x else SortByLine(rest)[0]
  {
    assert ([x] + rest)[1..] == rest;
  }

  /** `_.sortBy(safeSuggestions, ...)[0]` for the list the language server returned, or
      nothing when there is no list or no safe suggestion in it. */
  function NextSafeSuggestion(suggestions: Option<seq<Suggestion>>): Option<Suggestion> {
    match suggestions
    case None => None
    case Some(list) =>
      var safe := SafeSuggestions(list);
      if |safe| == 0 then None else Some(SortByLine(safe)[0])
  }

  /** The suggestion `s` is the first of the safe suggestions with the smallest line. */
  ghost predicate EarliestLowestSafe(list: seq<Suggestion>, s: Suggestion) {
    && IsSafe(s)
    && (forall t :: t in list && IsSafe(t) ==> s.suggestionLine <= t.suggestionLine)
    && exists i :: 0 <= i < |list| && list[i] == s &&
         forall j :: 0 <= j < i && IsSafe(list[j]) ==> list[j].suggestionLine > s.suggestionLine
  }

  /** There is nothing to apply exactly when the server gave no list or the list holds no
      safe suggestion; otherwise the chosen suggestion is safe, has the smallest line of the
      safe ones and, among those with that line, comes first in the list. */
  lemma {:induction false} NextSafeSuggestionSpec(suggestions: Option<seq<Suggestion>>)
    ensures NextSafeSuggestion(suggestions).None?
        <==> suggestions.None? || forall s :: s in suggestions.value ==> !IsSafe(s)
    ensures NextSafeSuggestion(suggestions).Some? ==>
      EarliestLowestSafe(suggestions.value, NextSafeSuggestion(suggestions).value)
  {
    if suggestions.Some? {
      var list := suggestions.value;
      if |SafeSuggestions(list)| == 0 {
        assert forall s :: s in list ==> !IsSafe(s);
      } else {
        EarliestLowestOfList(list);
      }
    }
  }

  lemma {:induction false} EarliestLowestOfList(list: seq<Suggestion>)
    requires |SafeSuggestions(list)| > 0
    ensures EarliestLowestSafe(list, SortByLine(SafeSuggestions(list))[0])
    decreases |list|
  {
    var x, rest := list[0], list[1..];
    assert list == [x] + rest;
    if !IsSafe(x) {
      assert SafeSuggestions(list) == SafeSuggestions(rest);
      EarliestLowestOfList(rest);
      EarliestAfterHead(x, rest, SortByLine(SafeSuggestions(rest))[0]);
    } else if |SafeSuggestions(rest)| == 0 {
      assert SafeSuggestions(list) == [x];
      EarliestAtHead(x, rest);
    } else {
      var safeRest := SafeSuggestions(rest);
      assert SafeSuggestions(list) == [x] + safeRest;
      var h := SortByLine(safeRest)[0];
      EarliestLowestOfList(rest);
      SortByLineHead(x, safeRest);
      if x.suggestionLine <= h.suggestionLine {
        EarliestAtHead(x, rest);
      } else {
        EarliestAfterHead(x, rest, h);
      }
    }
  }

  lemma EarliestAtHead(x: Suggestion, rest: seq<Suggestion>)
    requires IsSafe(x)
    requires forall t :: t in rest && IsSafe(t) ==> x.suggestionLine <= t.suggestionLine
    ensures EarliestLowestSafe([x] + rest, x)
  {
    assert ([x] + rest)[0] == x;
  }

  lemma EarliestAfterHead(x: Suggestion, rest: seq<Suggestion>, s: Suggestion)
    requires EarliestLowestSafe(rest, s)
    requires IsSafe(x) ==> x.suggestionLine > s.suggestionLine
    ensures EarliestLowestSafe([x] + rest, s)
  {
    var list := [x] + rest;
    var i :| 0 <= i < |rest| && rest[i] == s &&
      forall j :: 0 <= j < i && IsSafe(rest[j]) ==> rest[j].suggestionLine > s.suggestionLine;
    assert list[i + 1] == s;
    assert forall j :: 1 <= j < i + 1 ==> list[j] == rest[j - 1];
  }
}
