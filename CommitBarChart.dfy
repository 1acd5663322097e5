/** The commit bar chart's data: `getChartData` names the weekday of every
    commit, counts the commits per weekday name in a list of buckets that it
    updates in place, and sorts the buckets from Monday to Sunday. The weekday
    of a commit is its `getDay()` index, 0 for Sunday to 6 for Saturday.

    The counting and sorting are proved for names of any type and any sort
    table without duplicates; the two tables of the source are applied at the
    end. */
module CommitBarChart {
  import opened Seqs

  /** `weekday` (line 16): the name of each `getDay()` index. */
  const Weekday: seq<string> := ["Sunday", "Monday", "Tuesday", "Wednesday", "Thursday", "Friday", "Saturday"]

  /** `sorter` (line 17): the order of the bars. */
  const Sorter: seq<string> := ["Monday", "Tuesday", "Wednesday", "Thursday", "Friday", "Saturday", "Sunday"]

  /** One bar, `{name, count}`: a weekday name and its number of commits. */
  datatype DayCount<N> = DayCount(name: N, count: nat)

  predicate IsWeekdayIndex(d: int) {
    0 <= d < 7
  }

  predicate AllWeekdayIndices(days: seq<int>) {
    forall i :: 0 <= i < |days| ==> IsWeekdayIndex(days[i])
  }

  lemma SorterDistinct()
    ensures NoDuplicates(Sorter)
  {
    forall i, j | 0 <= i < j < 7 ensures Sorter[i] != Sorter[j] {
      assert Sorter[i][0] != Sorter[j][0] || Sorter[i][1] != Sorter[j][1];
    }
  }

  lemma WeekdayDistinct()
    ensures NoDuplicates(Weekday)
  {
    forall i, j | 0 <= i < j < 7 ensures Weekday[i] != Weekday[j] {
      assert Weekday[i][0] != Weekday[j][0] || Weekday[i][1] != Weekday[j][1];
    }
  }

  /** The two tables of lines 16 and 17 name each day once, and name the
      same seven days, `sorter` starting from Monday. */
  lemma SourceTables()
    ensures NoDuplicates(Weekday) && NoDuplicates(Sorter)
    ensures forall d :: 0 <= d < 7 ==> Weekday[d] == Sorter[(d + 6) % 7]
  {
    SorterDistinct();
    WeekdayDistinct();
  }

  /** A table without duplicates ranks each of its entries by its position. */
  lemma IndexOfPosition<N>(xs: seq<N>, k: int)
    requires NoDuplicates(xs) && 0 <= k < |xs|
    ensures IndexOf(xs, xs[k]) == k
  {
  }

  /** The weekday names of the commits, in commit order (lines 22-27). */
  function DayNames(weekday: seq<string>, days: seq<int>): (r: seq<string>)
    requires |weekday| == 7 && AllWeekdayIndices(days)
    ensures |r| == |days|
    ensures forall i :: 0 <= i < |r| ==> r[i] == weekday[days[i]]
  {
    seq(|days|, i requires 0 <= i < |days| => weekday[days[i]])
  }

  /** A weekday name occurs among the commits' names exactly as often as its
      `getDay()` index occurs among the commits' indices. */
  lemma {:induction false} DayNamesCount(weekday: seq<string>, days: seq<int>, d: int)
    requires |weekday| == 7 && NoDuplicates(weekday)
    requires AllWeekdayIndices(days) && IsWeekdayIndex(d)
    ensures multiset(DayNames(weekday, days))[weekday[d]] == multiset(days)[d]
  {
    if |days| > 0 {
      var init := days[..|days| - 1];
      var last := days[|days| - 1];
      assert days == init + [last];
      assert DayNames(weekday, days) == DayNames(weekday, init) + [weekday[last]];
      DayNamesCount(weekday, init, d);
      assert weekday[last] == weekday[d] <==> last == d;
    }
  }

  /** Commits in another order have the same weekday names, counted alike. */
  lemma DayNamesPermutation(weekday: seq<string>, a: seq<int>, b: seq<int>)
    requires |weekday| == 7 && NoDuplicates(weekday)
    requires AllWeekdayIndices(a) && AllWeekdayIndices(b) && multiset(a) == multiset(b)
    ensures multiset(DayNames(weekday, a)) == multiset(DayNames(weekday, b))
  {
    forall n ensures multiset(DayNames(weekday, a))[n] == multiset(DayNames(weekday, b))[n] {
      if n in weekday {
        var d :| 0 <= d < 7 && weekday[d] == n;
        DayNamesCount(weekday, a, d);
        DayNamesCount(weekday, b, d);
      } else {
        assert n !in DayNames(weekday, a) && n !in DayNames(weekday, b);
      }
    }
  }

  /** `rank` gives every `sorter` entry its position, and a name with a
      position is the entry there. */
  ghost predicate RanksOf<N(!new)>(sorter: seq<N>, rank: N -> int) {
    (forall j :: 0 <= j < |sorter| ==> rank(sorter[j]) == j) &&
    (forall n :: 0 <= rank(n) < |sorter| ==> sorter[rank(n)] == n)
  }

  /** `sorter.indexOf` is such a ranking for a table without duplicates. */
  lemma IndexOfRanks<N(!new)>(sorter: seq<N>)
    requires NoDuplicates(sorter)
    ensures RanksOf(sorter, n => IndexOf(sorter, n))
  {
    forall j | 0 <= j < |sorter| ensures IndexOf(sorter, sorter[j]) == j {
      IndexOfPosition(sorter, j);
    }
  }

  /** The bars for the `sorter` entries from position `k` on: one bar per
      entry that occurs in `names`, holding its number of occurrences, in
      `sorter` order. */
  function ChartFrom<N(==)>(sorter: seq<N>, names: multiset<N>, k: nat): (r: seq<DayCount<N>>)
    requires k <= |sorter|
    ensures |r| <= |sorter| - k
    decreases |sorter| - k
  {
    if k == |sorter| then []
    else
      var rest := ChartFrom(sorter, names, k + 1);
      if names[sorter[k]] > 0 then [DayCount(sorter[k], names[sorter[k]])] + rest else rest
  }

  /** What the chart shows for the commits with the given weekday indices:
      every weekday that has commits, once, with its number of commits, from
      Monday to Sunday. */
  function ChartData(days: seq<int>): seq<DayCount<string>>
    requires AllWeekdayIndices(days)
  {
    ChartFrom(Sorter, multiset(DayNames(Weekday, days)), 0)
  }

  /** Every bar from position `k` on names an entry ranked from `k` on and
      holds its number of occurrences, at least one. */
  lemma {:induction false} ChartFromBars<N(!new)>(sorter: seq<N>, rank: N -> int, names: multiset<N>, k: nat)
    requires k <= |sorter| && RanksOf(sorter, rank)
    ensures forall b :: b in ChartFrom(sorter, names, k) ==>
              k <= rank(b.name) < |sorter| && b.count == names[b.name] && b.count >= 1
    decreases |sorter| - k
  {
    if k < |sorter| {
      ChartFromBars(sorter, rank, names, k + 1);
    }
  }

  /** The bars from position `k` on are in strictly increasing rank. */
  lemma {:induction false} ChartFromOrdered<N(!new)>(sorter: seq<N>, rank: N -> int, names: multiset<N>, k: nat)
    requires k <= |sorter| && RanksOf(sorter, rank)
    ensures forall i, j :: 0 <= i < j < |ChartFrom(sorter, names, k)| ==>
              rank(ChartFrom(sorter, names, k)[i].name) < rank(ChartFrom(sorter, names, k)[j].name)
    decreases |sorter| - k
  {
    if k < |sorter| {
      var rest := ChartFrom(sorter, names, k + 1);
      ChartFromOrdered(sorter, rank, names, k + 1);
      ChartFromBars(sorter, rank, names, k + 1);
      var r := ChartFrom(sorter, names, k);
      if r != rest {
        forall i, j | 0 <= i < j < |r| ensures rank(r[i].name) < rank(r[j].name) {
          assert r[j] == rest[j - 1] && r[j] in rest;
          if i > 0 {
            assert r[i] == rest[i - 1];
          }
        }
      }
    }
  }

  /** Every entry from position `k` on that occurs in `names` has a bar. */
  lemma {:induction false} ChartFromCovers<N>(sorter: seq<N>, names: multiset<N>, k: nat)
    requires k <= |sorter|
    ensures forall j :: k <= j < |sorter| && names[sorter[j]] > 0 ==>
              exists b :: b in ChartFrom(sorter, names, k) && b.name == sorter[j]
    decreases |sorter| - k
  {
    if k < |sorter| {
      ChartFromCovers(sorter, names, k + 1);
      var r := ChartFrom(sorter, names, k);
      var rest := ChartFrom(sorter, names, k + 1);
      forall j | k <= j < |sorter| && names[sorter[j]] > 0
        ensures exists b :: b in r && b.name == sorter[j]
      {
        if j == k {
          assert r[0] in r && r[0].name == sorter[k];
        } else {
          var b :| b in rest && b.name == sorter[j];
          assert b in r;
        }
      }
    }
  }

  /** The bars of the chart: at most seven; a bar for a weekday exactly when
      it has commits, holding the number of commits with that `getDay()`
      index; strictly from Monday to Sunday, so no weekday twice. */
  lemma ChartDataBars(days: seq<int>)
    requires AllWeekdayIndices(days)
    ensures |ChartData(days)| <= 7
    ensures forall b :: b in ChartData(days) ==> b.name in Sorter && b.count >= 1
    ensures forall d :: IsWeekdayIndex(d) ==>
              (multiset(days)[d] > 0 <==> exists b :: b in ChartData(days) && b.name == Weekday[d])
    ensures forall b, d :: b in ChartData(days) && IsWeekdayIndex(d) && b.name == Weekday[d] ==>
              b.count == multiset(days)[d]
    ensures forall i, j :: 0 <= i < j < |ChartData(days)| ==>
              IndexOf(Sorter, ChartData(days)[i].name) < IndexOf(Sorter, ChartData(days)[j].name)
  {
    SourceTables();
    IndexOfRanks(Sorter);
    var names := multiset(DayNames(Weekday, days));
    ChartFromBars(Sorter, n => IndexOf(Sorter, n), names, 0);
    ChartFromOrdered(Sorter, n => IndexOf(Sorter, n), names, 0);
    ChartFromCovers(Sorter, names, 0);
    forall d | IsWeekdayIndex(d) ensures names[Weekday[d]] == multiset(days)[d] {
      DayNamesCount(Weekday, days, d);
    }
    forall d | IsWeekdayIndex(d)
      ensures multiset(days)[d] > 0 ==> exists b :: b in ChartData(days) && b.name == Weekday[d]
    {
      assert Weekday[d] == Sorter[(d + 6) % 7];
    }
  }

  /** The sum of the counts of some bars. */
  function Total<N>(bars: seq<DayCount<N>>): nat {
    if |bars| == 0 then 0 else bars[0].count + Total(bars[1..])
  }

  /** The occurrences in `names` of the `sorter` entries from position `k` on. */
  function CountFrom<N>(sorter: seq<N>, names: multiset<N>, k: nat): nat
    requires k <= |sorter|
    decreases |sorter| - k
  {
    if k == |sorter| then 0 else names[sorter[k]] + CountFrom(sorter, names, k + 1)
  }

  lemma {:induction false} CountFromNone<N>(sorter: seq<N>, k: nat)
    requires k <= |sorter|
    ensures CountFrom(sorter, multiset{}, k) == 0
    decreases |sorter| - k
  {
    if k < |sorter| {
      CountFromNone(sorter, k + 1);
    }
  }

  lemma {:induction false} CountFromAdd<N>(sorter: seq<N>, names: multiset<N>, n: N, k: nat)
    requires NoDuplicates(sorter) && k <= |sorter|
    ensures CountFrom(sorter, names + multiset{n}, k) == CountFrom(sorter, names, k) + (if n in sorter[k..] then 1 else 0)
    decreases |sorter| - k
  {
    if k < |sorter| {
      CountFromAdd(sorter, names, n, k + 1);
      assert sorter[k..] == [sorter[k]] + sorter[k + 1..];
    }
  }

  /** A table without duplicates that holds every name counts each once. */
  lemma {:induction false} CountFromAll<N>(sorter: seq<N>, s: seq<N>)
    requires NoDuplicates(sorter)
    requires forall i :: 0 <= i < |s| ==> s[i] in sorter
    ensures CountFrom(sorter, multiset(s), 0) == |s|
  {
    if |s| > 0 {
      var init := s[..|s| - 1];
      var last := s[|s| - 1];
      assert s == init + [last];
      CountFromAll(sorter, init);
      CountFromAdd(sorter, multiset(init), last, 0);
      assert sorter[0..] == sorter;
    } else {
      CountFromNone(sorter, 0);
    }
  }

  lemma {:induction false} ChartFromTotal<N>(sorter: seq<N>, names: multiset<N>, k: nat)
    requires k <= |sorter|
    ensures Total(ChartFrom(sorter, names, k)) == CountFrom(sorter, names, k)
    decreases |sorter| - k
  {
    if k < |sorter| {
      ChartFromTotal(sorter, names, k + 1);
      var rest := ChartFrom(sorter, names, k + 1);
      if names[sorter[k]] > 0 {
        assert ([DayCount(sorter[k], names[sorter[k]])] + rest)[1..] == rest;
      }
    }
  }

  /** The bars count every commit exactly once. */
  lemma ChartDataTotal(days: seq<int>)
    requires AllWeekdayIndices(days)
    ensures Total(ChartData(days)) == |days|
  {
    SourceTables();
    var cleanedDay := DayNames(Weekday, days);
    forall i | 0 <= i < |cleanedDay| ensures cleanedDay[i] in Sorter {
      assert cleanedDay[i] == Sorter[(days[i] + 6) % 7];
    }
    ChartFromTotal(Sorter, multiset(cleanedDay), 0);
    CountFromAll(Sorter, cleanedDay);
  }

  /** The chart depends only on how many commits fall on each weekday, not on
      the order of the commits. */
  lemma ChartDataPermutation(a: seq<int>, b: seq<int>)
    requires AllWeekdayIndices(a)
    requires multiset(a) == multiset(b)
    ensures AllWeekdayIndices(b)
    ensures ChartData(a) == ChartData(b)
  {
    assert forall i :: 0 <= i < |b| ==> b[i] in multiset(a);
    SourceTables();
    DayNamesPermutation(Weekday, a, b);
  }

  /** `dayCount.map(a => a.name)`. */
  function Names<N>(bars: seq<DayCount<N>>): (r: seq<N>)
    ensures |r| == |bars|
    ensures forall i :: 0 <= i < |r| ==> r[i] == bars[i].name
  {
    seq(|bars|, i requires 0 <= i < |bars| => bars[i].name)
  }

  /** Lines 29-33: for each weekday name, in commit order, either a new
      bucket with count 1 is pushed (the name was never counted) or the
      count of the bucket found by `indexOf` grows by one. Afterwards each
      name has exactly one bucket, holding the number of its occurrences. */
  method CountByName<N(==)>(cleanedDay: seq<N>) returns (dayCount: seq<DayCount<N>>)
    ensures NoDuplicates(Names(dayCount))
    ensures forall b :: b in dayCount ==> b.count == multiset(cleanedDay)[b.name] && b.count >= 1
    ensures forall n :: n in cleanedDay ==> n in Names(dayCount)
  {
    dayCount := [];
    var i := 0;
    while i < |cleanedDay|
      invariant 0 <= i <= |cleanedDay|
      invariant NoDuplicates(Names(dayCount))
      invariant forall j :: 0 <= j < |dayCount| ==>
                  dayCount[j].count == multiset(cleanedDay[..i])[dayCount[j].name] && dayCount[j].count >= 1
      invariant forall n :: n in cleanedDay[..i] ==> n in Names(dayCount)
    {
      var name := cleanedDay[i];
      assert cleanedDay[..i + 1] == cleanedDay[..i] + [name];
      if name !in Names(dayCount) {
        assert Names(dayCount + [DayCount(name, 1)]) == Names(dayCount) + [name];
        dayCount := dayCount + [DayCount(name, 1)];
      } else {
        var j := IndexOf(Names(dayCount), name);
        ghost var before := dayCount;
        dayCount := dayCount[j := dayCount[j].(count := dayCount[j].count + 1)];
        assert Names(dayCount) == Names(before);
      }
      i := i + 1;
    }
    assert cleanedDay[..i] == cleanedDay;
  }

  /** Exchanges two elements of an array. */
  method Swap<T>(a: array<T>, i: int, j: int)
    requires 0 <= i < a.Length && 0 <= j < a.Length
    modifies a
    ensures a[i] == old(a[j]) && a[j] == old(a[i])
    ensures forall k :: 0 <= k < a.Length && k != i && k != j ==> a[k] == old(a[k])
    ensures multiset(a[..]) == old(multiset(a[..]))
  {
    a[i], a[j] := a[j], a[i];
  }

  /** The position, from `from` on, of an element whose key is least. */
  method IndexOfMin<T>(a: array<T>, key: T -> int, from: nat) returns (m: nat)
    requires from < a.Length
    ensures from <= m < a.Length
    ensures forall q :: from <= q < a.Length ==> key(a[m]) <= key(a[q])
  {
    m := from;
    var j := from + 1;
    while j < a.Length
      invariant from <= m < a.Length && from + 1 <= j <= a.Length
      invariant forall q :: from <= q < j ==> key(a[m]) <= key(a[q])
    {
      if key(a[j]) < key(a[m]) {
        m := j;
      }
      j := j + 1;
    }
  }

  /** Line 36, in place: `sort` with the comparator `key(a) - key(b)`. The
      array ends up a permutation of what it held, in ascending key order. */
  method SortByKey<T>(a: array<T>, key: T -> int)
    modifies a
    ensures multiset(a[..]) == old(multiset(a[..]))
    ensures forall i, j :: 0 <= i < j < a.Length ==> key(a[i]) <= key(a[j])
  {
    var i := 0;
    while i < a.Length
      invariant 0 <= i <= a.Length
      invariant multiset(a[..]) == old(multiset(a[..]))
      invariant forall p, q :: 0 <= p < q < i ==> key(a[p]) <= key(a[q])
      invariant forall p, q :: 0 <= p < i <= q < a.Length ==> key(a[p]) <= key(a[q])
    {
      var m := IndexOfMin(a, key, i);
      Swap(a, i, m);
      i := i + 1;
    }
  }

  lemma MultisetTwice<N>(t: seq<DayCount<N>>, i: int, j: int)
    requires 0 <= i < j < |t| && t[i] == t[j]
    ensures multiset(t)[t[i]] >= 2
  {
    assert t == t[..j] + t[j..];
    assert t[..j][i] == t[i] && t[j..][0] == t[i];
  }

  lemma {:induction false} DistinctOnce<N>(s: seq<DayCount<N>>, x: DayCount<N>)
    requires NoDuplicates(Names(s))
    ensures multiset(s)[x] <= 1
  {
    if |s| > 0 {
      assert s == [s[0]] + s[1..];
      assert Names(s[1..]) == Names(s)[1..];
      DistinctOnce(s[1..], x);
      if s[0] == x {
        assert Names(s)[0] == x.name;
        assert x !in s[1..];
      }
    }
  }

  /** Reordering keeps the names distinct. */
  lemma DistinctNamesPermutation<N>(s: seq<DayCount<N>>, t: seq<DayCount<N>>)
    requires NoDuplicates(Names(s))
    requires multiset(s) == multiset(t)
    ensures NoDuplicates(Names(t))
  {
    forall i, j | 0 <= i < j < |t| ensures t[i].name != t[j].name {
      if t[i].name == t[j].name {
        assert t[i] in multiset(s) && t[j] in multiset(s);
        var p :| 0 <= p < |s| && s[p] == t[i];
        var q :| 0 <= q < |s| && s[q] == t[j];
        assert Names(s)[p] == Names(s)[q];
        MultisetTwice(t, i, j);
        DistinctOnce(s, t[i]);
        assert false;
      }
    }
  }

  /** Bars in strictly increasing rank, each ranked from `k` on and holding
      its number of occurrences in `names`, and one for every entry from
      position `k` on that occurs. */
  predicate BarsFrom<N(==)>(sorter: seq<N>, rank: N -> int, names: multiset<N>, s: seq<DayCount<N>>, k: nat) {
    (forall i, j :: 0 <= i < j < |s| ==> rank(s[i].name) < rank(s[j].name)) &&
    (forall b :: b in s ==>
       k <= rank(b.name) < |sorter| && b.count == names[b.name] && b.count >= 1) &&
    (forall j :: k <= j < |sorter| && names[sorter[j]] > 0 ==>
       exists b :: b in s && b.name == sorter[j])
  }

  /** When the entry at position `k` occurs, its bar comes first. */
  lemma SortedBarsFirst<N(!new)>(sorter: seq<N>, rank: N -> int, names: multiset<N>, s: seq<DayCount<N>>, k: nat)
    requires k < |sorter| && RanksOf(sorter, rank)
    requires BarsFrom(sorter, rank, names, s, k)
    requires names[sorter[k]] > 0
    ensures |s| > 0 && s[0] == DayCount(sorter[k], names[sorter[k]])
  {
    var b :| b in s && b.name == sorter[k];
    assert s[0] in s;
  }

  /** The bars after it are such bars from position `k + 1` on. */
  lemma SortedBarsRest<N(!new)>(sorter: seq<N>, rank: N -> int, names: multiset<N>, s: seq<DayCount<N>>, k: nat)
    requires k < |sorter| && RanksOf(sorter, rank)
    requires BarsFrom(sorter, rank, names, s, k)
    requires |s| > 0 && s[0].name == sorter[k]
    ensures BarsFrom(sorter, rank, names, s[1..], k + 1)
  {
    SortedBarsRestRanked(sorter, rank, names, s, k);
    SortedBarsRestCovers(sorter, rank, names, s, k);
  }

  /** The bars after the first rank from position `k + 1` on. */
  lemma SortedBarsRestRanked<N(!new)>(sorter: seq<N>, rank: N -> int, names: multiset<N>, s: seq<DayCount<N>>, k: nat)
    requires k < |sorter| && RanksOf(sorter, rank)
    requires BarsFrom(sorter, rank, names, s, k)
    requires |s| > 0 && s[0].name == sorter[k]
    ensures forall x :: x in s[1..] ==> k + 1 <= rank(x.name)
  {
    forall x | x in s[1..] ensures k + 1 <= rank(x.name) {
      var p :| 0 <= p < |s[1..]| && s[1..][p] == x;
      assert s[p + 1] == x;
    }
  }

  /** Every entry after position `k` that occurs still has a bar after the
      first. */
  lemma SortedBarsRestCovers<N(!new)>(sorter: seq<N>, rank: N -> int, names: multiset<N>, s: seq<DayCount<N>>, k: nat)
    requires k < |sorter| && RanksOf(sorter, rank)
    requires BarsFrom(sorter, rank, names, s, k)
    requires |s| > 0 && s[0].name == sorter[k]
    ensures forall j :: k + 1 <= j < |sorter| && names[sorter[j]] > 0 ==>
              exists x :: x in s[1..] && x.name == sorter[j]
  {
    assert s == [s[0]] + s[1..];
    forall j | k + 1 <= j < |sorter| && names[sorter[j]] > 0
      ensures exists x :: x in s[1..] && x.name == sorter[j]
    {
      var x :| x in s && x.name == sorter[j];
      assert x != s[0];
    }
  }

  /** When the entry at position `k` does not occur, no bar ranks `k`. */
  lemma SortedBarsSkip<N(!new)>(sorter: seq<N>, rank: N -> int, names: multiset<N>, s: seq<DayCount<N>>, k: nat)
    requires k < |sorter| && RanksOf(sorter, rank)
    requires BarsFrom(sorter, rank, names, s, k)
    requires names[sorter[k]] == 0
    ensures BarsFrom(sorter, rank, names, s, k + 1)
  {
  }

  /** Past the last position there are no such bars. */
  lemma SortedBarsEnd<N(!new)>(sorter: seq<N>, rank: N -> int, names: multiset<N>, s: seq<DayCount<N>>, k: nat)
    requires k == |sorter|
    requires BarsFrom(sorter, rank, names, s, k)
    ensures s == []
  {
    assert multiset(s) == multiset{};
    assert |multiset(s)| == |s|;
  }

  /** A first bar for the entry at position `k`, followed by the chart from
      position `k + 1` on, is the chart from position `k` on. */
  lemma ChartFromStep<N>(sorter: seq<N>, names: multiset<N>, s: seq<DayCount<N>>, k: nat)
    requires k < |sorter| && names[sorter[k]] > 0
    requires |s| > 0 && s[0] == DayCount(sorter[k], names[sorter[k]])
    requires s[1..] == ChartFrom(sorter, names, k + 1)
    ensures s == ChartFrom(sorter, names, k)
  {
    assert s == [s[0]] + s[1..];
  }

  /** Such bars from position `k` on are the chart from position `k` on. */
  lemma {:induction false} SortedBarsAreChart<N(!new)>(sorter: seq<N>, rank: N -> int, names: multiset<N>, s: seq<DayCount<N>>, k: nat)
    requires k <= |sorter| && RanksOf(sorter, rank)
    requires BarsFrom(sorter, rank, names, s, k)
    ensures s == ChartFrom(sorter, names, k)
    decreases |sorter| - k, 1
  {
    if k == |sorter| {
      SortedBarsEnd(sorter, rank, names, s, k);
    } else if names[sorter[k]] > 0 {
      SortedBarsPresent(sorter, rank, names, s, k);
    } else {
      SortedBarsAbsent(sorter, rank, names, s, k);
    }
  }

  lemma {:induction false} SortedBarsPresent<N(!new)>(sorter: seq<N>, rank: N -> int, names: multiset<N>, s: seq<DayCount<N>>, k: nat)
    requires k < |sorter| && RanksOf(sorter, rank)
    requires BarsFrom(sorter, rank, names, s, k)
    requires names[sorter[k]] > 0
    ensures s == ChartFrom(sorter, names, k)
    decreases |sorter| - k, 0
  {
    SortedBarsFirst(sorter, rank, names, s, k);
    SortedBarsRest(sorter, rank, names, s, k);
    SortedBarsAreChart(sorter, rank, names, s[1..], k + 1);
    ChartFromStep(sorter, names, s, k);
  }

  lemma {:induction false} SortedBarsAbsent<N(!new)>(sorter: seq<N>, rank: N -> int, names: multiset<N>, s: seq<DayCount<N>>, k: nat)
    requires k < |sorter| && RanksOf(sorter, rank)
    requires BarsFrom(sorter, rank, names, s, k)
    requires names[sorter[k]] == 0
    ensures s == ChartFrom(sorter, names, k)
    decreases |sorter| - k, 0
  {
    SortedBarsSkip(sorter, rank, names, s, k);
    SortedBarsAreChart(sorter, rank, names, s, k + 1);
  }

  /** The buckets counted from names that the table holds, once sorted by
      rank, are the chart of those names. */
  lemma SortedBucketsAreChart<N(!new)>(sorter: seq<N>, rank: N -> int, cleanedDay: seq<N>,
                                     dayCount: seq<DayCount<N>>, chart: seq<DayCount<N>>)
    requires RanksOf(sorter, rank)
    requires forall i :: 0 <= i < |cleanedDay| ==> cleanedDay[i] in sorter
    requires NoDuplicates(Names(dayCount))
    requires forall b :: b in dayCount ==> b.count == multiset(cleanedDay)[b.name] && b.count >= 1
    requires forall n :: n in cleanedDay ==> n in Names(dayCount)
    requires multiset(chart) == multiset(dayCount)
    requires forall i, j :: 0 <= i < j < |chart| ==> rank(chart[i].name) <= rank(chart[j].name)
    ensures chart == ChartFrom(sorter, multiset(cleanedDay), 0)
  {
    var names := multiset(cleanedDay);
    DistinctNamesPermutation(dayCount, chart);
    forall b | b in chart
      ensures 0 <= rank(b.name) < |sorter| && b.count == names[b.name] && b.count >= 1
    {
      assert b in multiset(dayCount);
      assert b.name in cleanedDay;
      var j :| 0 <= j < |sorter| && sorter[j] == b.name;
    }
    forall j | 0 <= j < |sorter| && names[sorter[j]] > 0
      ensures exists b :: b in chart && b.name == sorter[j]
    {
      assert sorter[j] in cleanedDay;
      var p :| 0 <= p < |dayCount| && Names(dayCount)[p] == sorter[j];
      assert dayCount[p] in multiset(chart);
    }
    forall p, q | 0 <= p < q < |chart| ensures rank(chart[p].name) < rank(chart[q].name) {
      assert chart[p] in chart && chart[q] in chart;
      assert Names(chart)[p] != Names(chart)[q];
    }
    SortedBarsAreChart(sorter, rank, names, chart, 0);
  }

  /** `getChartData` (lines 15-37): name the weekday of each commit, count
      the names in buckets, sort the buckets into `sorter` order. The result
      is the chart of the commits' weekdays. */
  method GetChartData(days: seq<int>) returns (chart: seq<DayCount<string>>)
    requires AllWeekdayIndices(days)
    ensures chart == ChartData(days)
  {
    var cleanedDay: seq<string> := [];
    var i := 0;
    while i < |days|
      invariant 0 <= i <= |days|
      invariant cleanedDay == DayNames(Weekday, days[..i])
    {
      cleanedDay := cleanedDay + [Weekday[days[i]]];
      i := i + 1;
    }
    assert days[..i] == days;

    var dayCount := CountByName(cleanedDay);
    var a := new DayCount<string>[|dayCount|](j requires 0 <= j < |dayCount| => dayCount[j]);
    assert a[..] == dayCount;
    SortByKey(a, (b: DayCount<string>) => IndexOf(Sorter, b.name));
    chart := a[..];
    SourceTables();
    IndexOfRanks(Sorter);
    forall k | 0 <= k < |cleanedDay| ensures cleanedDay[k] in Sorter {
      assert cleanedDay[k] == Sorter[(days[k] + 6) % 7];
    }
    SortedBucketsAreChart(Sorter, n => IndexOf(Sorter, n), cleanedDay, dayCount, chart);
  }

  /** Three commits on a Monday and one on a Friday, in any order, give a
      Monday bar of 3 followed by a Friday bar of 1. */
  lemma MondaysAndFriday()
    ensures ChartData([5, 1, 1, 1]) == [DayCount("Monday", 3), DayCount("Friday", 1)]
  {
    var days := [5, 1, 1, 1];
    var names := multiset(DayNames(Weekday, days));
    assert DayNames(Weekday, days) == ["Friday", "Monday", "Monday", "Monday"];
    assert names == multiset{"Friday", "Monday", "Monday", "Monday"};
    SorterDistinct();
    assert names[Sorter[0]] == 3 && names[Sorter[4]] == 1;
    forall j | 0 <= j < 7 && j != 0 && j != 4 ensures names[Sorter[j]] == 0 {
      assert Sorter[j] != "Friday" && Sorter[j] != "Monday";
    }
    assert ChartFrom(Sorter, names, 6) == [];
    assert ChartFrom(Sorter, names, 5) == [];
    assert ChartFrom(Sorter, names, 4) == [DayCount("Friday", 1)];
    assert ChartFrom(Sorter, names, 3) == [DayCount("Friday", 1)];
    assert ChartFrom(Sorter, names, 2) == [DayCount("Friday", 1)];
    assert ChartFrom(Sorter, names, 1) == [DayCount("Friday", 1)];
  }
}
