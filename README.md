# Issue and commit shaping of the GitLab dashboard, in Dafny

This project models the three data-shaping routines of the `prosjekt-2`
GitLab dashboard and proves what they promise:

- **Issue normaliser** (`GetIssues` module). `cleanUpResponse` turns every raw
  issue of the GitLab API response into a flat display record and appends it
  to the page's `cleanedResults` list.
  - A `null` or empty description becomes "No description".
  - Every other description loses its CR and LF characters.
  - An empty assignee list becomes "Unassigned". A non-empty list becomes the
    names joined by ",".
  - The state "opened" becomes "Open"; any other state becomes "Closed".
  - The list is a field of the class `IssuesPage`, and `CleanUpResponse`
    appends to it in a loop.
- **Issue filter and pages** (`IssuesFilter` module).
  - `filterOnChoices` applies the two optional selections, by whole assignee
    text and by state.
  - The `names` loop collects the assignee texts without duplicates.
  - `numberOfPages` is `ceil(len / 5)`.
  - The component's selections and current page are the fields of the class
    `IssuesFilterView`. Its change handlers reset the page to 1.
- **Weekday aggregator** (`CommitBarChart` module). `getChartData` works in
  three steps:
  - it names the weekday of every commit from the `weekday` table, indexed by `getDay()`;
  - it counts the names in a list of buckets;
  - it sorts the buckets, in place on an array, into Monday-to-Sunday order.

  The method `GetChartData` is proved equal to a specification function
  `ChartData`. Lemmas about that function state how many bars there are,
  their counts, their order, their total and their independence from commit
  order. The counting and sorting argument is proved for any name type and
  any rank table without duplicates, and then applied to the source's two
  tables.

`Seqs` holds the shared sequence vocabulary: `Option`, `IndexOf`,
`NoDuplicates`, `SubsequenceOf`, `Filter` and `Map`.

Two behaviours of the code worth noting:
- Assignee names are joined by "," with no space. This is what
  `Array.prototype.toString` does, rather than ", ".
- A description made only of line breaks is checked against "" before it is
  stripped. It is therefore shown as the empty string, not as
  "No description" (`GetIssues.LineBreakOnlyDescriptionIsEmpty`).

## Model

| member | source | states |
|---|---|---|
| GetIssues.DescriptionOf | prosjekt-2/src/api/GetIssues.tsx:45 | a `null` or empty description becomes "No description"; any other becomes its text with line breaks stripped; the result never holds CR or LF |
| GetIssues.StripLineBreaks | prosjekt-2/src/api/GetIssues.tsx:56 | `replace(/[\r\n]+/g, "")`: the result holds no CR or LF and is no longer than the input (its content is pinned down by `StripIsFilter`) |
| GetIssues.StripIsFilter | prosjekt-2/src/api/GetIssues.tsx:56 | `replace(/[\r\n]+/g, "")` is exactly the order-preserving filter that drops CR and LF |
| GetIssues.StripKeepsOtherCharacters | prosjekt-2/src/api/GetIssues.tsx:56 | the stripped text is a subsequence of the input; every character other than CR/LF keeps its number of occurrences; CR and LF occur zero times |
| GetIssues.StripWithoutLineBreaks | prosjekt-2/src/api/GetIssues.tsx:56 | a text without line breaks is left unchanged |
| GetIssues.StripIdempotent | prosjekt-2/src/api/GetIssues.tsx:56 | stripping twice equals stripping once |
| GetIssues.LineBreakOnlyDescriptionIsEmpty | prosjekt-2/src/api/GetIssues.tsx:45 | the placeholder test comes before stripping, so "\r\n" is shown as "" |
| GetIssues.Capitalize | prosjekt-2/src/api/GetIssues.tsx:57 | `s[0].toUpperCase() + s.slice(1)`: same length, the tail unchanged; a first letter a-z becomes its own capital (code point minus 32); any other first character leaves the text unchanged |
| GetIssues.StateOf | prosjekt-2/src/api/GetIssues.tsx:47 | the shown state is "Open" exactly when the raw state is "opened", and "Closed" exactly when it is not |
| GetIssues.JoinComma | prosjekt-2/src/api/GetIssues.tsx:57 | `Array.prototype.toString`: no names give "", a single name is shown as itself |
| GetIssues.JoinAppend | prosjekt-2/src/api/GetIssues.tsx:57 | one more name is joined on after a ",", whatever the names hold; with the single-name case this fixes the text of every non-empty list |
| GetIssues.JoinWithCommaInName | prosjekt-2/src/api/GetIssues.tsx:57 | names holding commas are joined as they are: ["a,b", "c"] is shown as "a,b,c" |
| GetIssues.JoinSplit | prosjekt-2/src/api/GetIssues.tsx:57 | joining a non-empty list of comma-free names with "," is undone by splitting at ",", which gives back the names in order |
| GetIssues.CommaInNameIsAmbiguous | prosjekt-2/src/api/GetIssues.tsx:57 | a name holding a comma displays like two names |
| GetIssues.AssigneesOf | prosjekt-2/src/api/GetIssues.tsx:49-53 | an empty assignee list gives "Unassigned"; comma-free names are recovered in source order from the joined text |
| GetIssues.Normalize | prosjekt-2/src/api/GetIssues.tsx:44-57 | the display record of one raw issue keeps the title and date, and its state is always "Open" or "Closed" |
| GetIssues.NormalizeFields | prosjekt-2/src/api/GetIssues.tsx:44-57 | per field of the display record: the title and date are copied; the description rules; "Unassigned" or the ","-joined names; "Open"/"Closed" by whether the state is "opened" |
| GetIssues.AssigneeNames | prosjekt-2/src/api/GetIssues.tsx:50-53 | the `push` loop yields ["Unassigned"] for no assignees and otherwise every name in order |
| GetIssues.CleanUpIssue | prosjekt-2/src/api/GetIssues.tsx:44-57 | the record built in the `map` callback is the normalisation of the raw issue |
| GetIssues.IssuesPage.constructor | prosjekt-2/src/api/GetIssues.tsx:14 | `cleanedResults` starts empty |
| GetIssues.IssuesPage.CleanUpResponse | prosjekt-2/src/api/GetIssues.tsx:42-60 | exactly one normalised record is appended per raw issue, in input order; the records already there are unchanged |
| Seqs.Filter | prosjekt-2/src/components/IssuesFilter.tsx:113-120 | `filter`: a subsequence of the input that holds an element iff the input holds it and the predicate accepts it |
| IssuesFilter.FilterOnChoices | prosjekt-2/src/components/IssuesFilter.tsx:108-122 | each of the four branches returns the order-preserving filter by the conjunction of the chosen selections; with nothing chosen it returns the input itself |
| IssuesFilter.FilterIsSubsequence | prosjekt-2/src/components/IssuesFilter.tsx:108-122 | the filtered list is a subsequence of `cleanedResults`, so it is no longer |
| IssuesFilter.FilterKeepsSelected | prosjekt-2/src/components/IssuesFilter.tsx:112-120 | an issue is in the result iff it is in the input and passes both selections; its multiplicity is kept |
| IssuesFilter.FilterOrderIrrelevant | prosjekt-2/src/components/IssuesFilter.tsx:118-120 | name-then-state filtering and state-then-name filtering both equal the single filter on the conjunction |
| IssuesFilter.ChoosingEverythingKeepsAll | prosjekt-2/src/components/IssuesFilter.tsx:74 | choosing every assignee text, or both offered states, hides nothing |
| IssuesFilter.UniqueNames | prosjekt-2/src/components/IssuesFilter.tsx:76-81 | `names` has no duplicates and holds exactly the assignee texts, in order of first occurrence |
| IssuesFilter.NumberOfPages | prosjekt-2/src/components/IssuesFilter.tsx:28-29 | `ceil(count / 5)`: the pages hold every issue, one page fewer would not, and it is 0 iff there are no issues |
| IssuesFilter.IssuesFilterView.constructor | prosjekt-2/src/components/IssuesFilter.tsx:25-27 | no selections and page 1, so the whole list is shown |
| IssuesFilter.IssuesFilterView.Filtered | prosjekt-2/src/components/IssuesFilter.tsx:29 | the issues shown over all pages: a subsequence of `cleanedResults` holding exactly the issues the current selections let through |
| IssuesFilter.IssuesFilterView.PageCount | prosjekt-2/src/components/IssuesFilter.tsx:29 | `Math.ceil(filtered.length / 5)`: the pages hold every shown issue, one page fewer would not, and it is 0 iff nothing is shown |
| IssuesFilter.IssuesFilterView.HandlePagination | prosjekt-2/src/components/IssuesFilter.tsx:33-36 | the requested page becomes current; the selections are unchanged |
| IssuesFilter.IssuesFilterView.HandleChosenNameChange | prosjekt-2/src/components/IssuesFilter.tsx:84-95 | the name selection is replaced; the page goes back to 1, which is a real page whenever something is shown |
| IssuesFilter.IssuesFilterView.HandleChosenStatesChange | prosjekt-2/src/components/IssuesFilter.tsx:97-106 | the state selection is replaced; the page goes back to 1, which is a real page whenever something is shown |
| CommitBarChart.SourceTables | prosjekt-2/src/charts/CommitBarChart.tsx:16-17 | both tables name each day once, and `weekday[d]` is `sorter[(d + 6) % 7]` |
| CommitBarChart.DayNames | prosjekt-2/src/charts/CommitBarChart.tsx:22-27 | one name per commit, in commit order, each the `weekday` entry at the commit's `getDay()` index |
| CommitBarChart.DayNamesCount | prosjekt-2/src/charts/CommitBarChart.tsx:22-27 | a weekday name occurs among the commit names exactly as often as its index occurs among the commits |
| CommitBarChart.DayNamesPermutation | prosjekt-2/src/charts/CommitBarChart.tsx:22-27 | reordered commits give the same multiset of names |
| CommitBarChart.IndexOfRanks | prosjekt-2/src/charts/CommitBarChart.tsx:36 | on a table without duplicates, `indexOf` gives each entry its position |
| CommitBarChart.Names | prosjekt-2/src/charts/CommitBarChart.tsx:32 | `dayCount.map(a => a.name)`: one name per bucket, in bucket order |
| Seqs.IndexOf | prosjekt-2/src/charts/CommitBarChart.tsx:32-36 | `indexOf`: -1 exactly when the value is absent; otherwise the position of its first occurrence |
| CommitBarChart.CountByName | prosjekt-2/src/charts/CommitBarChart.tsx:29-33 | the buckets have distinct names; every name has one; each count equals that name's occurrences and is at least 1 |
| CommitBarChart.SortByKey | prosjekt-2/src/charts/CommitBarChart.tsx:36 | the in-place sort leaves a permutation of the buckets, in ascending key order |
| CommitBarChart.SortedBucketsAreChart | prosjekt-2/src/charts/CommitBarChart.tsx:29-36 | counted buckets, once sorted by rank, are exactly the chart of the names |
| CommitBarChart.GetChartData | prosjekt-2/src/charts/CommitBarChart.tsx:15-37 | the method's result is `ChartData` of the commits' weekday indices |
| CommitBarChart.ChartDataBars | prosjekt-2/src/charts/CommitBarChart.tsx:15-37 | at most 7 bars; a weekday has a bar iff it has commits; each bar's count is its commit count and at least 1; strict Monday-to-Sunday order |
| CommitBarChart.ChartDataTotal | prosjekt-2/src/charts/CommitBarChart.tsx:22-33 | the bar counts sum to the number of commits |
| CommitBarChart.ChartDataPermutation | prosjekt-2/src/charts/CommitBarChart.tsx:29-36 | the chart depends only on the multiset of weekdays |
| CommitBarChart.MondaysAndFriday | prosjekt-2/src/charts/CommitBarChart.tsx:15-37 | commits on Friday, Monday, Monday and Monday give [Monday 3, Friday 1] |

## Left out

- The HTTP request, `useEffect`, loading and error state, and console logging (GetIssues.tsx lines 11-39 and 62-80) are left out. They are I/O and React state plumbing.
- `new Date(...)`, `toDateString()` and `getDay()` are left out because they depend on the time zone. `createdAt` is an opaque string that is copied. The weekday of a commit is an input index 0..6, 0 being Sunday. The model requires each index to be 0..6. In the source an unparseable `committedDate` makes `getDay()` NaN, so the name is `undefined`, and that bucket sorts before Monday because `sorter.indexOf` gives -1 (CommitBarChart.tsx lines 23-24 and 36); that case is not modelled.
- A raw issue whose `description` or `assignees` field is missing altogether would make line 56 or 51 throw. The model does not represent that case: `RawIssue` always has both fields.
- A raw issue without a `title` or `state` is not represented: `RawIssue` always has both. Such an issue would not throw; it would carry `undefined` as its title, and a missing state would be shown as "Closed" like any other value than "opened".
- An assignee without a `name` pushes `undefined`, which `toString` shows as "". It is not modelled: names are strings.
- `PaginationFunctions` (`skip`, the page slice) is not part of this model. The page number is not clamped, since the handlers shown do not clamp it.
- The autofill `value.split(",")` branch of the change handlers (lines 90 and 102) is left out. The handlers take the new selection as a list.
- The handlers' calls to `filterOnChoices` with the old selections (lines 93 and 104) are left out, because their results are discarded.
- All JSX, MUI widgets, theme styling, Recharts rendering and `CommitsViews.tsx` are left out. They are display only.
- CommitBarChart.SortByKey is a selection sort, not the engine's `Array.prototype.sort`. Both produce the same bucket order because the bucket names are distinct, so the keys are distinct.
- GetIssues.Capitalize upper-cases only the ASCII letters a-z. `toUpperCase` also maps other letters, such as 'é' to 'É', and can change the length ('ß' becomes "SS"); "open" and "closed", the only texts it is given here, need nothing more.
- GetIssues.AssigneesOf states the round trip only for names without commas. With a comma inside a name the joined text is ambiguous (`GetIssues.CommaInNameIsAmbiguous`).
