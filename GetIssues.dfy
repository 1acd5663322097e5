/** The issue normaliser of the issues page: `cleanUpResponse` turns each raw
    issue of the GitLab API response into a flat display record and appends it
    to the page's `cleanedResults` list. */
module GetIssues {
  import opened Seqs

  /** One element of the API response, as far as the normaliser reads it.
      `description` is `None` when the API sends `null`. `createdAt` stands for
      the already rendered date string (`toDateString()` of `created_at`);
      `assignees` holds the `name` of each assignee, in the API's order. */
  datatype RawIssue = RawIssue(
    title: string,
    description: Option<string>,
    createdAt: string,
    state: string,
    assignees: seq<string>)

  /** The display record that the issue list and its filters work on. */
  datatype Issue = Issue(
    title: string,
    description: string,
    createdAt: string,
    assignees: string,
    state: string)

  const NoDescription: string := "No description"
  const Unassigned: string := "Unassigned"

  predicate IsLineBreak(c: char) {
    c == '\r' || c == '\n'
  }

  /** `s.replace(/[\r\n]+/g, "")`: every maximal run of CR/LF characters is
      replaced by nothing, which removes each CR and LF character. */
  function StripLineBreaks(s: string): (r: string)
    ensures forall i :: 0 <= i < |r| ==> !IsLineBreak(r[i])
    ensures |r| <= |s|
  {
    if |s| == 0 then ""
    else if IsLineBreak(s[0]) then StripLineBreaks(s[1..])
    else [s[0]] + StripLineBreaks(s[1..])
  }

  /** Stripping is the filter that keeps exactly the characters other than
      CR and LF, in their order. */
  lemma {:induction false} StripIsFilter(s: string)
    ensures StripLineBreaks(s) == Filter(s, c => !IsLineBreak(c))
  {
    if |s| > 0 {
      StripIsFilter(s[1..]);
    }
  }

  /** Every character other than CR and LF survives stripping as often as it
      occurs, and the result is a subsequence of the input. */
  lemma StripKeepsOtherCharacters(s: string, c: char)
    ensures SubsequenceOf(StripLineBreaks(s), s)
    ensures multiset(StripLineBreaks(s))[c] == if IsLineBreak(c) then 0 else multiset(s)[c]
  {
    StripIsFilter(s);
    FilterCounts(s, c => !IsLineBreak(c), c);
  }

  /** A text without line breaks is left as it is. */
  lemma {:induction false} StripWithoutLineBreaks(s: string)
    requires forall i :: 0 <= i < |s| ==> !IsLineBreak(s[i])
    ensures StripLineBreaks(s) == s
  {
    if |s| > 0 {
      StripWithoutLineBreaks(s[1..]);
      assert s == [s[0]] + s[1..];
    }
  }

  /** Stripping twice is stripping once. */
  lemma StripIdempotent(s: string)
    ensures StripLineBreaks(StripLineBreaks(s)) == StripLineBreaks(s)
  {
    StripWithoutLineBreaks(StripLineBreaks(s));
  }

  /** The description shown for a raw description (lines 45 and 56): a `null`
      or empty description becomes the placeholder, any other loses its line
      breaks. */
  function DescriptionOf(d: Option<string>): (r: string)
    ensures d == None || d == Some("") ==> r == NoDescription
    ensures forall i :: 0 <= i < |r| ==> !IsLineBreak(r[i])
    ensures d.Some? && d.value != "" ==> r == StripLineBreaks(d.value)
  {
    var description := if d == None || d == Some("") then NoDescription else d.value;
    StripWithoutLineBreaks(NoDescription);
    StripLineBreaks(description)
  }

  /** The placeholder is checked before stripping, so a description made only
      of line breaks is shown as the empty string. */
  lemma LineBreakOnlyDescriptionIsEmpty()
    ensures DescriptionOf(Some("\r\n")) == ""
  {
    assert StripLineBreaks("\r\n"[1..]) == "";
  }

  /** `toUpperCase()` of one character, for the ASCII letters it meets here. */
  function ToUpper(c: char): char {
    if 'a' <= c <= 'z' then (c as int - 'a' as int + 'A' as int) as char else c
  }

  /** `s[0].toUpperCase() + s.slice(1)`. */
  function Capitalize(s: string): (r: string)
    requires |s| > 0
    ensures |r| == |s| && r[1..] == s[1..]
    ensures 'a' <= s[0] <= 'z' ==> 'A' <= r[0] <= 'Z' && r[0] as int == s[0] as int - 32
    ensures !('a' <= s[0] <= 'z') ==> r == s
  {
    [ToUpper(s[0])] + s[1..]
  }

  /** The state shown for a raw state (lines 47 and 57): "Open" exactly for
      "opened", "Closed" for every other value. */
  function StateOf(raw: string): (r: string)
    ensures r == "Open" <==> raw == "opened"
    ensures r == "Closed" <==> raw != "opened"
  {
    var state := if raw == "opened" then "open" else "closed";
    assert Capitalize("open") == "Open" && Capitalize("closed") == "Closed";
    Capitalize(state)
  }

  /** `Array.prototype.toString`: the elements joined by "," with no space. */
  function JoinComma(names: seq<string>): (r: string)
    ensures |names| == 0 ==> r == ""
    ensures |names| == 1 ==> r == names[0]
  {
    if |names| == 0 then ""
    else if |names| == 1 then names[0]
    else names[0] + "," + JoinComma(names[1..])
  }

  /** One more name is joined on after a comma, whatever the names hold; with
      the single-name case this fixes the text of every non-empty list. */
  lemma {:induction false} JoinAppend(names: seq<string>, n: string)
    requires |names| > 0
    ensures JoinComma(names + [n]) == JoinComma(names) + "," + n
  {
    if |names| > 1 {
      JoinAppend(names[1..], n);
      assert (names + [n])[1..] == names[1..] + [n];
    } else {
      assert (names + [n])[1..] == [n];
    }
  }

  /** Names holding commas are joined all the same: `["a,b", "c"]` is shown
      as "a,b,c". */
  lemma JoinWithCommaInName()
    ensures JoinComma(["a,b", "c"]) == "a,b,c"
  {
    JoinAppend(["a,b"], "c");
  }

  /** `s.split(",")`, the inverse of `JoinComma` on names without commas. */
  function Split(s: string): (r: seq<string>)
    ensures |r| > 0
  {
    if |s| == 0 then [""]
    else
      var rest := Split(s[1..]);
      if s[0] == ',' then [""] + rest
      else [[s[0]] + rest[0]] + rest[1..]
  }

  /** Splitting a text that starts with a character other than a comma puts
      that character in front of the first piece. */
  lemma SplitCons(c: char, s: string)
    requires c != ','
    ensures Split([c] + s) == [[c] + Split(s)[0]] + Split(s)[1..]
  {
    assert ([c] + s)[1..] == s;
  }

  lemma {:induction false} SplitComma(x: string, t: string)
    requires ',' !in x
    ensures Split(x + t) == [x + Split(t)[0]] + Split(t)[1..]
  {
    if |x| > 0 {
      SplitComma(x[1..], t);
      assert x + t == [x[0]] + (x[1..] + t);
      SplitCons(x[0], x[1..] + t);
      assert [x[0]] + (x[1..] + Split(t)[0]) == x + Split(t)[0];
    } else {
      assert x + t == t && x + Split(t)[0] == Split(t)[0];
      assert Split(t) == [Split(t)[0]] + Split(t)[1..];
    }
  }

  /** Joining a non-empty list of names that contain no comma can be undone by
      splitting at the commas. */
  lemma {:induction false} JoinSplit(names: seq<string>)
    requires |names| > 0
    requires forall i :: 0 <= i < |names| ==> ',' !in names[i]
    ensures Split(JoinComma(names)) == names
  {
    if |names| == 1 {
      SplitComma(names[0], "");
      assert names[0] + "" == names[0];
    } else {
      var rest := JoinComma(names[1..]);
      JoinSplit(names[1..]);
      assert names[0] + "," + rest == names[0] + ("," + rest);
      SplitComma(names[0], "," + rest);
      assert ("," + rest)[1..] == rest;
      assert names[0] + "" == names[0];
      assert names == [names[0]] + names[1..];
    }
  }

  /** A name holding a comma makes two different assignee lists display alike. */
  lemma CommaInNameIsAmbiguous()
    ensures JoinComma(["a,b"]) == JoinComma(["a", "b"])
  {
    assert JoinComma(["a", "b"]) == "a" + "," + "b";
  }

  /** The assignee text (lines 49-53 and 57): "Unassigned" for an empty list,
      otherwise the names joined by commas in the API's order. */
  function AssigneesOf(assignees: seq<string>): (r: string)
    ensures |assignees| == 0 ==> r == Unassigned
    ensures |assignees| > 0 && (forall i :: 0 <= i < |assignees| ==> ',' !in assignees[i])
            ==> Split(r) == assignees
  {
    if |assignees| == 0 then Unassigned
    else
      assert (forall i :: 0 <= i < |assignees| ==> ',' !in assignees[i])
             ==> Split(JoinComma(assignees)) == assignees
        by { if forall i :: 0 <= i < |assignees| ==> ',' !in assignees[i] { JoinSplit(assignees); } }
      JoinComma(assignees)
  }

  /** The display record for one raw issue: the title and date are carried
      over, and the shown state is one of the two that the state selection
      offers. */
  function Normalize(raw: RawIssue): (r: Issue)
    ensures r.title == raw.title && r.createdAt == raw.createdAt
    ensures r.state == "Open" || r.state == "Closed"
  {
    Issue(raw.title, DescriptionOf(raw.description), raw.createdAt,
          AssigneesOf(raw.assignees), StateOf(raw.state))
  }

  /** What each field of the display record is: the title and date copied,
      the placeholder for a missing or empty description and no line breaks
      in any other, "Unassigned" or the comma-joined names, and "Open" or
      "Closed" by whether the raw state is exactly "opened". */
  lemma NormalizeFields(raw: RawIssue)
    ensures Normalize(raw).title == raw.title && Normalize(raw).createdAt == raw.createdAt
    ensures raw.description == None || raw.description == Some("") ==> Normalize(raw).description == NoDescription
    ensures raw.description.Some? && raw.description.value != "" ==>
              Normalize(raw).description == StripLineBreaks(raw.description.value)
    ensures forall i :: 0 <= i < |Normalize(raw).description| ==> !IsLineBreak(Normalize(raw).description[i])
    ensures |raw.assignees| == 0 ==> Normalize(raw).assignees == Unassigned
    ensures |raw.assignees| > 0 ==> Normalize(raw).assignees == JoinComma(raw.assignees)
    ensures Normalize(raw).state == "Open" <==> raw.state == "opened"
    ensures Normalize(raw).state == "Closed" <==> raw.state != "opened"
  {
  }

  /** The assignee names collected by `push` (lines 50-53): the placeholder
      alone for an empty list, otherwise every name in order. */
  method AssigneeNames(assignees: seq<string>) returns (names: seq<string>)
    ensures |assignees| == 0 ==> names == [Unassigned]
    ensures |assignees| > 0 ==> names == assignees
  {
    names := [];
    if |assignees| == 0 {
      names := names + [Unassigned];
    } else {
      var i := 0;
      while i < |assignees|
        invariant 0 <= i <= |assignees|
        invariant names == assignees[..i]
      {
        names := names + [assignees[i]];
        i := i + 1;
      }
    }
  }

  /** The body of the `map` callback in `cleanUpResponse` (lines 44-57): the
      display record built from one raw issue. */
  method CleanUpIssue(result: RawIssue) returns (issue: Issue)
    ensures issue == Normalize(result)
  {
    var description := if result.description == None || result.description == Some("")
                       then NoDescription else result.description.value;
    var state := if result.state == "opened" then "open" else "closed";
    var assigneeNames := AssigneeNames(result.assignees);
    issue := Issue(result.title, StripLineBreaks(description), result.createdAt,
                   JoinComma(assigneeNames), Capitalize(state));
  }

  /** The display records of a whole response, one per raw issue, in the
      response's order. */
  function NormalizeAll(res: seq<RawIssue>): seq<Issue> {
    Map(Normalize, res)
  }

  /** The issue page's record list (`cleanedResults`, line 14), which
      `cleanUpResponse` appends to. */
  class IssuesPage {
    var cleanedResults: seq<Issue>

    /** The list starts empty. */
    constructor ()
      ensures cleanedResults == []
    {
      cleanedResults := [];
    }

    /** `cleanUpResponse` (lines 42-60): one display record per raw issue is
        pushed onto `cleanedResults`, in the response's order; the records
        already there are kept. */
    method CleanUpResponse(res: seq<RawIssue>)
      modifies this
      ensures cleanedResults == old(cleanedResults) + NormalizeAll(res)
      ensures |cleanedResults| == |old(cleanedResults)| + |res|
      ensures cleanedResults[..|old(cleanedResults)|] == old(cleanedResults)
    {
      var i := 0;
      while i < |res|
        invariant 0 <= i <= |res|
        invariant cleanedResults == old(cleanedResults) + NormalizeAll(res[..i])
      {
        var issue := CleanUpIssue(res[i]);
        MapStep(Normalize, res, i);
        cleanedResults := cleanedResults + [issue];
        i := i + 1;
      }
      assert res[..i] == res;
    }
  }
}
