/** The issue list component: two optional selections (assignee texts and
    states) narrow the normalised issues, the list is shown five issues to a
    page, and changing a selection returns to the first page. */
module IssuesFilter {
  import opened Seqs
  import opened GetIssues

  /** `elementsPerPage` (line 28). */
  const ElementsPerPage: nat := 5

  /** The values offered by the state selection (line 74). */
  const States: seq<string> := ["Open", "Closed"]

  /** What the two selections together let through: an empty selection lets
      everything through; a non-empty name selection needs the whole assignee
      text to be one of the chosen values, a non-empty state selection the
      state to be one of the chosen states. */
  predicate Selected(chosenNames: seq<string>, chosenStates: seq<string>, r: Issue) {
    (|chosenNames| == 0 || r.assignees in chosenNames) &&
    (|chosenStates| == 0 || r.state in chosenStates)
  }

  /** `filterOnChoices` (lines 108-122), its four branches as written. In
      every branch the result is the order-preserving subsequence of the
      issues that the selections let through. */
  function FilterOnChoices(cleanedResults: seq<Issue>, chosenNames: seq<string>, chosenStates: seq<string>)
    : (r: seq<Issue>)
    ensures r == Filter(cleanedResults, x => Selected(chosenNames, chosenStates, x))
    ensures |chosenNames| == 0 && |chosenStates| == 0 ==> r == cleanedResults
  {
    var selected := (x: Issue) => Selected(chosenNames, chosenStates, x);
    var byName := (x: Issue) => x.assignees in chosenNames;
    var byState := (x: Issue) => x.state in chosenStates;
    if |chosenStates| == 0 && |chosenNames| == 0 then
      FilterKeepsAll(cleanedResults, selected);
      cleanedResults
    else if |chosenStates| == 0 then
      FilterAgree(cleanedResults, byName, selected);
      Filter(cleanedResults, byName)
    else if |chosenNames| == 0 then
      FilterAgree(cleanedResults, byState, selected);
      Filter(cleanedResults, byState)
    else
      var filteredResults := Filter(cleanedResults, byName);
      FilterFilter(cleanedResults, byName, byState, selected);
      Filter(filteredResults, byState)
  }

  /** The filtered list is a subsequence of the issues: nothing is added,
      nothing reordered, so it is never longer. */
  lemma FilterIsSubsequence(cleanedResults: seq<Issue>, chosenNames: seq<string>, chosenStates: seq<string>)
    ensures SubsequenceOf(FilterOnChoices(cleanedResults, chosenNames, chosenStates), cleanedResults)
    ensures |FilterOnChoices(cleanedResults, chosenNames, chosenStates)| <= |cleanedResults|
  {
    SubsequenceLength(FilterOnChoices(cleanedResults, chosenNames, chosenStates), cleanedResults);
  }

  /** An issue is kept, as often as it occurs, exactly when the selections
      let it through. */
  lemma FilterKeepsSelected(cleanedResults: seq<Issue>, chosenNames: seq<string>, chosenStates: seq<string>, x: Issue)
    ensures x in FilterOnChoices(cleanedResults, chosenNames, chosenStates)
            <==> x in cleanedResults && Selected(chosenNames, chosenStates, x)
    ensures multiset(FilterOnChoices(cleanedResults, chosenNames, chosenStates))[x]
            == if Selected(chosenNames, chosenStates, x) then multiset(cleanedResults)[x] else 0
  {
    FilterCounts(cleanedResults, y => Selected(chosenNames, chosenStates, y), x);
  }

  /** With both selections made, filtering by name and then by state, or by
      state and then by name, gives the same list as the combined filter. */
  lemma FilterOrderIrrelevant(cleanedResults: seq<Issue>, chosenNames: seq<string>, chosenStates: seq<string>)
    ensures FilterOnChoices(FilterOnChoices(cleanedResults, chosenNames, []), [], chosenStates)
            == FilterOnChoices(cleanedResults, chosenNames, chosenStates)
    ensures FilterOnChoices(FilterOnChoices(cleanedResults, [], chosenStates), chosenNames, [])
            == FilterOnChoices(cleanedResults, chosenNames, chosenStates)
  {
    var both := (x: Issue) => Selected(chosenNames, chosenStates, x);
    FilterFilter(cleanedResults, x => Selected(chosenNames, [], x), x => Selected([], chosenStates, x), both);
    FilterFilter(cleanedResults, x => Selected([], chosenStates, x), x => Selected(chosenNames, [], x), both);
  }

  /** Choosing every value that occurs hides nothing: all assignee texts of
      the list, or both states of a list the normaliser produced. */
  lemma ChoosingEverythingKeepsAll(cleanedResults: seq<Issue>, chosenNames: seq<string>)
    requires forall r :: r in cleanedResults ==> r.assignees in chosenNames
    requires forall r :: r in cleanedResults ==> r.state == "Open" || r.state == "Closed"
    ensures FilterOnChoices(cleanedResults, chosenNames, []) == cleanedResults
    ensures FilterOnChoices(cleanedResults, [], States) == cleanedResults
  {
    FilterIdentity(cleanedResults, x => Selected(chosenNames, [], x));
    FilterIdentity(cleanedResults, x => Selected([], States, x));
  }

  /** The assignee text of each issue, in list order. */
  function AssigneeTexts(cleanedResults: seq<Issue>): (r: seq<string>)
    ensures |r| == |cleanedResults|
    ensures forall i :: 0 <= i < |r| ==> r[i] == cleanedResults[i].assignees
  {
    seq(|cleanedResults|, i requires 0 <= i < |cleanedResults| => cleanedResults[i].assignees)
  }

  lemma FirstIndexBefore(xs: seq<string>, k: nat, n: string)
    requires k <= |xs| && n in xs[..k]
    ensures 0 <= IndexOf(xs, n) < k
  {
    var j :| 0 <= j < k && xs[..k][j] == n;
    assert xs[j] == n;
  }

  lemma FirstIndexAt(xs: seq<string>, k: nat)
    requires k < |xs| && xs[k] !in xs[..k]
    ensures IndexOf(xs, xs[k]) == k
  {
  }

  /** The `names` loop (lines 76-81): the assignee texts of the list without
      duplicates, every one of them and nothing else, in the order of their
      first occurrence. */
  method UniqueNames(cleanedResults: seq<Issue>) returns (names: seq<string>)
    ensures NoDuplicates(names)
    ensures forall n :: n in names <==> n in AssigneeTexts(cleanedResults)
    ensures forall i, j :: 0 <= i < j < |names| ==>
              IndexOf(AssigneeTexts(cleanedResults), names[i]) < IndexOf(AssigneeTexts(cleanedResults), names[j])
  {
    ghost var texts := AssigneeTexts(cleanedResults);
    names := [];
    var k := 0;
    while k < |cleanedResults|
      invariant 0 <= k <= |cleanedResults|
      invariant NoDuplicates(names)
      invariant forall n :: n in names <==> n in texts[..k]
      invariant forall i :: 0 <= i < |names| ==> IndexOf(texts, names[i]) < k
      invariant forall i, j :: 0 <= i < j < |names| ==> IndexOf(texts, names[i]) < IndexOf(texts, names[j])
    {
      var result := cleanedResults[k];
      assert texts[..k + 1] == texts[..k] + [result.assignees];
      if result.assignees !in names {
        FirstIndexAt(texts, k);
        names := names + [result.assignees];
      }
      forall i | 0 <= i < |names| ensures IndexOf(texts, names[i]) < k + 1 {
        FirstIndexBefore(texts, k + 1, names[i]);
      }
      k := k + 1;
    }
    assert texts[..k] == texts;
  }

  /** `numberOfPages` (line 29): `Math.ceil(count / elementsPerPage)`, the
      fewest pages of five that hold `count` issues; no pages for none. */
  function NumberOfPages(count: nat): (p: nat)
    ensures p * ElementsPerPage >= count
    ensures p > 0 ==> (p - 1) * ElementsPerPage < count
    ensures p == 0 <==> count == 0
  {
    (count + ElementsPerPage - 1) / ElementsPerPage
  }

  /** The component's state: the issues it was given, the two selections and
      the page shown (`useState` at lines 25-27). */
  class IssuesFilterView {
    const cleanedResults: seq<Issue>
    var chosenNames: seq<string>
    var chosenStates: seq<string>
    var onPage: int

    /** Nothing chosen, and pagination starts at page 1. */
    constructor (cleanedResults: seq<Issue>)
      ensures this.cleanedResults == cleanedResults
      ensures chosenNames == [] && chosenStates == [] && onPage == 1
      ensures Filtered() == cleanedResults
    {
      this.cleanedResults := cleanedResults;
      chosenNames := [];
      chosenStates := [];
      onPage := 1;
    }

    /** The issues shown over all pages (line 29's `filterOnChoices(chosenNames,
        chosenStates)`): those the current selections let through, in order. */
    function Filtered(): (r: seq<Issue>)
      reads this
      ensures SubsequenceOf(r, cleanedResults)
      ensures forall x :: x in r <==> x in cleanedResults && Selected(chosenNames, chosenStates, x)
    {
      FilterIsSubsequence(cleanedResults, chosenNames, chosenStates);
      assert forall x :: x in FilterOnChoices(cleanedResults, chosenNames, chosenStates)
                         <==> x in cleanedResults && Selected(chosenNames, chosenStates, x) by {
        forall x ensures x in FilterOnChoices(cleanedResults, chosenNames, chosenStates)
                         <==> x in cleanedResults && Selected(chosenNames, chosenStates, x) {
          FilterKeepsSelected(cleanedResults, chosenNames, chosenStates, x);
        }
      }
      FilterOnChoices(cleanedResults, chosenNames, chosenStates)
    }

    /** The page count given to the pagination widget (line 29). */
    function PageCount(): (p: nat)
      reads this
      ensures p * ElementsPerPage >= |Filtered()|
      ensures p > 0 ==> (p - 1) * ElementsPerPage < |Filtered()|
      ensures p == 0 <==> |Filtered()| == 0
    {
      NumberOfPages(|Filtered()|)
    }

    /** `handlePagination` (lines 33-36): the page requested becomes the page
        shown; the selections stay. */
    method HandlePagination(p: int)
      modifies this
      ensures onPage == p
      ensures chosenNames == old(chosenNames) && chosenStates == old(chosenStates)
    {
      onPage := p;
    }

    /** `handleChosenNameChange` (lines 84-95): the new name selection is
        stored and the list goes back to page 1, which is a real page
        whenever some issue is shown. */
    method HandleChosenNameChange(value: seq<string>)
      modifies this
      ensures chosenNames == value && chosenStates == old(chosenStates)
      ensures onPage == 1
      ensures |Filtered()| > 0 ==> 1 <= onPage <= PageCount()
    {
      chosenNames := value;
      HandlePagination(1);
    }

    /** `handleChosenStatesChange` (lines 97-106): as for names, with the
        state selection. */
    method HandleChosenStatesChange(value: seq<string>)
      modifies this
      ensures chosenStates == value && chosenNames == old(chosenNames)
      ensures onPage == 1
      ensures |Filtered()| > 0 ==> 1 <= onPage <= PageCount()
    {
      chosenStates := value;
      HandlePagination(1);
    }
  }
}
