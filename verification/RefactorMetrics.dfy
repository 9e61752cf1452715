/**
 * scripts/refactor_metrics.py: the cohort report, its greedy recurrence clusters, and why the report
 * does not depend on the order of the history.
 *
 * Times are microseconds; commit ids, member ids and bug classes are numbers. Reviewing classifications
 * and the final verdict are parameters of the report, which sees the history only through this module.
 */
module RefactorMetrics {
  import opened Prelude

  datatype ChangedFile = ChangedFile(path: string, lines: nat)

  datatype Commit = Commit(sha: nat, committedAt: int, files: seq<ChangedFile>)

  datatype Entry = Entry(id: nat, paths: set<string>)

  datatype Window = Window(start: int, end: int) {
    predicate Contains(at: int) { start <= at < end }
  }

  datatype Classification = Classification(fix: bool, bugClasses: set<nat>, affected: set<nat>)

  /* ---------- sorting ---------- */

  /** The sort key `(committed_at, sha)`. */
  predicate Before(a: Commit, b: Commit) { a.committedAt < b.committedAt || (a.committedAt == b.committedAt && a.sha < b.sha) }

  function Insert(c: Commit, s: seq<Commit>): (r: seq<Commit>)
    ensures multiset(r) == multiset(s) + multiset{c}
  {
    if s == [] || !Before(s[0], c) then [c] + s
    else
      assert [s[0]] + s[1..] == s;
      [s[0]] + Insert(c, s[1..])
  }

  /** `_sorted_commits`; like Python's `sorted` it is stable. */
  function Sorted(s: seq<Commit>): (r: seq<Commit>)
    ensures multiset(r) == multiset(s)
  {
    if s == [] then []
    else
      assert [s[0]] + s[1..] == s;
      Insert(s[0], Sorted(s[1..]))
  }

  predicate InOrder(s: seq<Commit>) { forall i, j :: 0 <= i < j < |s| ==> Before(s[i], s[j]) }

  predicate DistinctShas(s: seq<Commit>) { forall i, j :: 0 <= i < j < |s| ==> s[i].sha != s[j].sha }

  lemma {:induction false} InsertInOrder(c: Commit, s: seq<Commit>)
    requires InOrder(s) && forall i :: 0 <= i < |s| ==> s[i].sha != c.sha
    ensures InOrder(Insert(c, s))
  {
    if s != [] && Before(s[0], c) {
      InsertInOrder(c, s[1..]);
      var rest := Insert(c, s[1..]);
      forall j | 0 <= j < |rest| ensures Before(s[0], rest[j]) {
        assert rest[j] in multiset(rest);
        assert rest[j] == c || rest[j] in s[1..];
      }
    }
  }

  lemma {:induction false} SortedInOrder(s: seq<Commit>)
    requires DistinctShas(s)
    ensures InOrder(Sorted(s))
  {
    if s != [] {
      SortedInOrder(s[1..]);
      var rest := Sorted(s[1..]);
      forall i | 0 <= i < |rest| ensures rest[i].sha != s[0].sha {
        assert rest[i] in multiset(s[1..]);
      }
      InsertInOrder(s[0], rest);
    }
  }

  lemma HeadAndTail(s: seq<Commit>)
    requires s != []
    ensures [s[0]] + s[1..] == s && multiset(s[1..]) == multiset(s) - multiset{s[0]}
  {
  }

  lemma HeadIsLeast(s: seq<Commit>, c: Commit)
    requires InOrder(s) && c in multiset(s)
    ensures s != [] && (c == s[0] || Before(s[0], c))
  {
  }

  lemma SameHead(a: seq<Commit>, b: seq<Commit>)
    requires InOrder(a) && InOrder(b) && multiset(a) == multiset(b) && a != []
    ensures b != [] && a[0] == b[0]
  {
    HeadIsLeast(b, a[0]);
    HeadIsLeast(a, b[0]);
  }

  /** There is only one way to put the same commits in order. */
  lemma {:induction false} OneOrder(a: seq<Commit>, b: seq<Commit>)
    requires InOrder(a) && InOrder(b) && multiset(a) == multiset(b)
    ensures a == b
  {
    if a == [] {
      assert |multiset(b)| == 0;
    } else {
      SameHead(a, b);
      HeadAndTail(a);
      HeadAndTail(b);
      OneOrder(a[1..], b[1..]);
    }
  }

  /** Sorting forgets the order in which commits with distinct ids came. */
  lemma SortedForgetsOrder(a: seq<Commit>, b: seq<Commit>)
    requires multiset(a) == multiset(b) && DistinctShas(a) && DistinctShas(b)
    ensures Sorted(a) == Sorted(b)
  {
    SortedInOrder(a);
    SortedInOrder(b);
    OneOrder(Sorted(a), Sorted(b));
  }

  /* ---------- filters ---------- */

  function Filter(p: Commit -> bool, s: seq<Commit>): (r: seq<Commit>)
    ensures forall c :: c in r ==> c in s && p(c)
  {
    if s == [] then []
    else if p(s[|s| - 1]) then Filter(p, s[..|s| - 1]) + [s[|s| - 1]]
    else Filter(p, s[..|s| - 1])
  }

  lemma {:induction false} FilterCounts(p: Commit -> bool, s: seq<Commit>, c: Commit)
    ensures multiset(Filter(p, s))[c] == if p(c) then multiset(s)[c] else 0
  {
    if s != [] {
      assert s == s[..|s| - 1] + [s[|s| - 1]];
      FilterCounts(p, s[..|s| - 1], c);
    }
  }

  lemma FilterForgetsOrder(p: Commit -> bool, a: seq<Commit>, b: seq<Commit>)
    requires multiset(a) == multiset(b)
    ensures multiset(Filter(p, a)) == multiset(Filter(p, b))
  {
    forall c ensures multiset(Filter(p, a))[c] == multiset(Filter(p, b))[c] {
      FilterCounts(p, a, c);
      FilterCounts(p, b, c);
    }
  }

  lemma {:induction false} FilterKeepsDistinct(p: Commit -> bool, s: seq<Commit>)
    requires DistinctShas(s)
    ensures DistinctShas(Filter(p, s))
  {
    if s != [] {
      var first := s[..|s| - 1];
      FilterKeepsDistinct(p, first);
      forall i | 0 <= i < |Filter(p, first)| ensures Filter(p, first)[i].sha != s[|s| - 1].sha {
        assert Filter(p, first)[i] in first;
      }
    }
  }

  /* ---------- touching ---------- */

  /** `_entry_paths`: of two entries with one id the later wins. */
  function EntryPaths(entries: seq<Entry>): map<nat, set<string>> {
    if entries == [] then map[]
    else EntryPaths(entries[..|entries| - 1])[entries[|entries| - 1].id := entries[|entries| - 1].paths]
  }

  function RegisteredPaths(entries: seq<Entry>): set<string> {
    if entries == [] then {} else RegisteredPaths(entries[..|entries| - 1]) + entries[|entries| - 1].paths
  }

  predicate ChangesAny(c: Commit, paths: set<string>) { exists f :: f in c.files && f.path in paths }

  function Matched(c: Commit, entries: seq<Entry>): set<nat> {
    var byId := EntryPaths(entries);
    set id | id in byId && ChangesAny(c, byId[id])
  }

  function LinesIn(files: seq<ChangedFile>, paths: set<string>): nat {
    if files == [] then 0
    else LinesIn(files[..|files| - 1], paths) + if files[|files| - 1].path in paths then files[|files| - 1].lines else 0
  }

  function Lines(c: Commit, entries: seq<Entry>): nat { LinesIn(c.files, RegisteredPaths(entries)) }

  function Touches(entries: seq<Entry>): Commit -> bool { c => Matched(c, entries) != {} }

  /** A registered cohort; `active` says that its anchor is, and `bugClasses` are in sorted order. */
  datatype Cohort = Cohort(
    active: bool, members: seq<Entry>, controls: seq<Entry>, bugClasses: seq<nat>, completionSha: nat, completion: int,
    preWindow: int, postWindow: int, migrations: set<nat>, recurrenceWindow: nat)

  function Touched(cohort: Cohort, c: Commit): set<nat> { Matched(c, cohort.members) + Matched(c, cohort.controls) }

  /** `_touching_index`. */
  function TouchingIndex(cohort: Cohort, commits: seq<Commit>): map<nat, set<nat>> {
    if commits == [] then map[]
    else
      var before, c := TouchingIndex(cohort, commits[..|commits| - 1]), commits[|commits| - 1];
      if Touched(cohort, c) == {} then before
      else before[c.sha := (if c.sha in before then before[c.sha] else {}) + Touched(cohort, c)]
  }

  /** `c` is a commit that the index lists under its id. */
  ghost predicate Listed(cohort: Cohort, commits: seq<Commit>, c: Commit) { c in commits && Touched(cohort, c) != {} }

  ghost predicate Complete(cohort: Cohort, commits: seq<Commit>, index: map<nat, set<nat>>) {
    forall c :: Listed(cohort, commits, c) ==> c.sha in index && index[c.sha] == Touched(cohort, c)
  }

  ghost predicate Backed(cohort: Cohort, commits: seq<Commit>, index: map<nat, set<nat>>) {
    forall sha :: sha in index ==> exists c :: Listed(cohort, commits, c) && c.sha == sha
  }

  lemma {:induction false} IndexBacked(cohort: Cohort, commits: seq<Commit>)
    ensures Backed(cohort, commits, TouchingIndex(cohort, commits))
  {
    if commits != [] {
      var first, last := commits[..|commits| - 1], commits[|commits| - 1];
      IndexBacked(cohort, first);
      var before, after := TouchingIndex(cohort, first), TouchingIndex(cohort, commits);
      forall sha | sha in after ensures exists c :: Listed(cohort, commits, c) && c.sha == sha {
        if sha in before {
          var c :| Listed(cohort, first, c) && c.sha == sha;
          assert Listed(cohort, commits, c);
        } else {
          assert Listed(cohort, commits, last);
        }
      }
    }
  }

  lemma {:induction false} IndexComplete(cohort: Cohort, commits: seq<Commit>)
    requires DistinctShas(commits)
    ensures Complete(cohort, commits, TouchingIndex(cohort, commits))
  {
    if commits != [] {
      var first, last := commits[..|commits| - 1], commits[|commits| - 1];
      IndexComplete(cohort, first);
      LastIsNew(cohort, commits);
      forall c | Listed(cohort, commits, c) && c != last ensures Listed(cohort, first, c) && c.sha != last.sha {
        var i :| 0 <= i < |commits| && commits[i] == c;
        assert first[i] == c && commits[i].sha != commits[|commits| - 1].sha;
      }
    }
  }

  lemma LastIsNew(cohort: Cohort, commits: seq<Commit>)
    requires commits != [] && DistinctShas(commits)
    ensures commits[|commits| - 1].sha !in TouchingIndex(cohort, commits[..|commits| - 1])
  {
    var first, last := commits[..|commits| - 1], commits[|commits| - 1];
    IndexBacked(cohort, first);
    forall c | c in first ensures c.sha != last.sha {
      var i :| 0 <= i < |first| && first[i] == c;
      assert commits[i].sha != commits[|commits| - 1].sha;
    }
  }

  lemma IndexForgetsOrder(cohort: Cohort, a: seq<Commit>, b: seq<Commit>)
    requires multiset(a) == multiset(b) && DistinctShas(a) && DistinctShas(b)
    ensures TouchingIndex(cohort, a) == TouchingIndex(cohort, b)
  {
    IndexWithin(cohort, a, b);
    IndexWithin(cohort, b, a);
  }

  lemma IndexWithin(cohort: Cohort, a: seq<Commit>, b: seq<Commit>)
    requires multiset(a) == multiset(b) && DistinctShas(a) && DistinctShas(b)
    ensures var x, y := TouchingIndex(cohort, a), TouchingIndex(cohort, b);
            forall sha :: sha in x ==> sha in y && y[sha] == x[sha]
  {
    IndexBacked(cohort, a);
    IndexComplete(cohort, a);
    IndexComplete(cohort, b);
    forall c | Listed(cohort, a, c) ensures Listed(cohort, b, c) {
      assert c in multiset(a);
    }
  }

  /* ---------- group metrics ---------- */

  datatype Metrics = Metrics(touching: seq<nat>, changedLines: nat, fixes: seq<nat>)

  predicate IsFix(c: Commit, matched: set<nat>, classes: map<nat, Classification>) {
    c.sha in classes && classes[c.sha].fix && classes[c.sha].affected * matched != {}
  }

  /** The metrics of commits taken in the given order. */
  function MetricsOf(commits: seq<Commit>, entries: seq<Entry>, classes: map<nat, Classification>): Metrics {
    if commits == [] then Metrics([], 0, [])
    else
      var m, c := MetricsOf(commits[..|commits| - 1], entries, classes), commits[|commits| - 1];
      var matched := Matched(c, entries);
      if matched == {} then m
      else Metrics(m.touching + [c.sha], m.changedLines + Lines(c, entries),
                   if IsFix(c, matched, classes) then m.fixes + [c.sha] else m.fixes)
  }

  /** A ratio rounded to six places, in millionths; there is none over zero. */
  function Millionths(n: nat, d: nat): Option<int> {
    if d == 0 then None else Some(RoundHalfEven(n as real * 1000000.0 / d as real))
  }

  datatype GroupReport = GroupReport(metrics: Metrics, fixDensity: Option<int>, fixesPerKloc: Option<int>)

  function WithRates(m: Metrics): GroupReport {
    GroupReport(m, Millionths(|m.fixes|, |m.touching|), Millionths(|m.fixes| * 1000, m.changedLines))
  }

  /** A density is a fraction between none and all; it is absent exactly when nothing was touched. */
  lemma DensityIsAFraction(commits: seq<Commit>, entries: seq<Entry>, classes: map<nat, Classification>)
    ensures var r := WithRates(MetricsOf(commits, entries, classes));
            && (r.fixDensity == None <==> r.metrics.touching == [])
            && (r.fixDensity.Some? ==> 0 <= r.fixDensity.value <= 1_000_000)
            && (r.fixDensity.Some? && r.metrics.fixes == [] ==> r.fixDensity == Some(0))
  {
    MetricsList(commits, entries, classes);
    var m := MetricsOf(commits, entries, classes);
    if m.touching != [] {
      FractionBound(|m.fixes|, |m.touching|);
    }
  }

  lemma FractionBound(n: nat, d: nat)
    requires n <= d && d > 0
    ensures 0 <= Millionths(n, d).value <= 1_000_000 && (n == 0 ==> Millionths(n, d).value == 0)
  {
    var v := n as real * 1000000.0 / d as real;
    assert v * d as real == n as real * 1000000.0;
    assert 0.0 <= v <= 1000000.0;
  }

  /** `_group_metrics`. */
  method GroupMetrics(commits: seq<Commit>, entries: seq<Entry>, classes: map<nat, Classification>) returns (r: GroupReport)
    ensures r == WithRates(MetricsOf(Sorted(commits), entries, classes))
  {
    hide Sorted, WithRates, Matched, Lines;
    var sorted := Sorted(commits);
    var touched: seq<Commit> := [];
    var changedLines: nat := 0;
    for i := 0 to |sorted|
      invariant touched == Filter(Touches(entries), sorted[..i])
      invariant changedLines == MetricsOf(sorted[..i], entries, classes).changedLines
    {
      OneMoreCommit(sorted, i, entries, classes);
      if Matched(sorted[i], entries) != {} {
        touched := touched + [sorted[i]];
        changedLines := changedLines + Lines(sorted[i], entries);
      }
    }
    assert sorted[..|sorted|] == sorted;
    var touching, fixes := ListTouching(touched, entries, classes);
    FilterKeepsMetrics(sorted, entries, classes);
    r := WithRates(Metrics(touching, changedLines, fixes));
  }

  lemma OneMoreCommit(sorted: seq<Commit>, i: nat, entries: seq<Entry>, classes: map<nat, Classification>)
    requires i < |sorted|
    ensures var c, before := sorted[i], MetricsOf(sorted[..i], entries, classes).changedLines;
            && Filter(Touches(entries), sorted[..i + 1])
                 == Filter(Touches(entries), sorted[..i]) + (if Matched(c, entries) != {} then [c] else [])
            && MetricsOf(sorted[..i + 1], entries, classes).changedLines
                 == before + (if Matched(c, entries) != {} then Lines(c, entries) else 0)
  {
    hide Matched, Lines, IsFix;
    assert sorted[..i + 1][..i] == sorted[..i];
  }

  /** The two comprehensions that follow the loop. */
  method ListTouching(touched: seq<Commit>, entries: seq<Entry>, classes: map<nat, Classification>)
    returns (touching: seq<nat>, fixes: seq<nat>)
    requires forall c :: c in touched ==> Matched(c, entries) != {}
    ensures touching == MetricsOf(touched, entries, classes).touching && fixes == MetricsOf(touched, entries, classes).fixes
  {
    touching, fixes := [], [];
    for i := 0 to |touched|
      invariant touching == MetricsOf(touched[..i], entries, classes).touching
      invariant fixes == MetricsOf(touched[..i], entries, classes).fixes
    {
      assert touched[..i + 1][..i] == touched[..i];
      assert touched[i] in touched;
      touching := touching + [touched[i].sha];
      if IsFix(touched[i], Matched(touched[i], entries), classes) { fixes := fixes + [touched[i].sha]; }
    }
    assert touched[..|touched|] == touched;
  }

  lemma {:induction false} FilterKeepsMetrics(commits: seq<Commit>, entries: seq<Entry>, classes: map<nat, Classification>)
    ensures MetricsOf(Filter(Touches(entries), commits), entries, classes) == MetricsOf(commits, entries, classes)
  {
    if commits != [] {
      var first, last := commits[..|commits| - 1], commits[|commits| - 1];
      FilterKeepsMetrics(first, entries, classes);
      if Touches(entries)(last) {
        assert (Filter(Touches(entries), first) + [last])[..|Filter(Touches(entries), first)|] == Filter(Touches(entries), first);
      }
    }
  }

  /** The metrics list the ids of the touching commits, and the fixes among them, each once and in order. */
  lemma MetricsList(commits: seq<Commit>, entries: seq<Entry>, classes: map<nat, Classification>)
    ensures var m := MetricsOf(commits, entries, classes);
            && m.touching == ShasOf(Filter(Touches(entries), commits))
            && m.fixes == ShasOf(Filter(FixesTouching(entries, classes), commits))
            && |m.fixes| <= |m.touching| <= |commits|
  {
    TouchingList(commits, entries, classes);
    FixesList(commits, entries, classes);
  }

  lemma {:induction false} TouchingList(commits: seq<Commit>, entries: seq<Entry>, classes: map<nat, Classification>)
    ensures var m := MetricsOf(commits, entries, classes);
            && m.touching == ShasOf(Filter(Touches(entries), commits)) && |m.fixes| <= |m.touching| <= |commits|
  {
    hide Matched, IsFix, Lines;
    if commits != [] {
      var first, last := commits[..|commits| - 1], commits[|commits| - 1];
      TouchingList(first, entries, classes);
      ShasSnoc(Filter(Touches(entries), first), last);
    }
  }

  lemma {:induction false} FixesList(commits: seq<Commit>, entries: seq<Entry>, classes: map<nat, Classification>)
    ensures MetricsOf(commits, entries, classes).fixes == ShasOf(Filter(FixesTouching(entries, classes), commits))
  {
    hide Matched, IsFix, Lines;
    if commits != [] {
      var first, last := commits[..|commits| - 1], commits[|commits| - 1];
      FixesList(first, entries, classes);
      ShasSnoc(Filter(FixesTouching(entries, classes), first), last);
    }
  }

  function FixesTouching(entries: seq<Entry>, classes: map<nat, Classification>): Commit -> bool {
    c => Matched(c, entries) != {} && IsFix(c, Matched(c, entries), classes)
  }

  function ShasOf(commits: seq<Commit>): seq<nat> {
    if commits == [] then [] else ShasOf(commits[..|commits| - 1]) + [commits[|commits| - 1].sha]
  }

  lemma ShasSnoc(commits: seq<Commit>, c: Commit)
    ensures ShasOf(commits + [c]) == ShasOf(commits) + [c.sha]
  {
  }

  /* ---------- recurrence clusters ---------- */

  predicate ByTime(fixes: seq<Commit>) { forall i, j :: 0 <= i <= j < |fixes| ==> fixes[i].committedAt <= fixes[j].committedAt }

  predicate Tight(cluster: seq<Commit>, window: nat) {
    cluster != [] && forall i :: 0 <= i < |cluster| ==> cluster[i].committedAt <= cluster[0].committedAt + window
  }

  predicate Apart(cluster: seq<Commit>, later: seq<Commit>, window: nat) {
    cluster != [] && later != [] && later[0].committedAt > cluster[0].committedAt + window
  }

  /** Each cluster spans at most the window, and starts more than a window after the one before it starts. */
  predicate Greedy(clusters: seq<seq<Commit>>, window: nat) {
    clusters != [] ==>
      && Tight(clusters[0], window) && (|clusters| > 1 ==> Apart(clusters[0], clusters[1], window))
      && Greedy(clusters[1..], window)
  }

  lemma {:induction false} GreedySnoc(clusters: seq<seq<Commit>>, last: seq<Commit>, window: nat)
    requires Greedy(clusters, window) && Tight(last, window)
    requires clusters != [] ==> Apart(clusters[|clusters| - 1], last, window)
    ensures Greedy(clusters + [last], window)
  {
    if clusters != [] {
      GreedySnoc(clusters[1..], last, window);
      assert (clusters + [last])[1..] == clusters[1..] + [last];
    }
  }

  /** The first cluster is everything within the window of the first commit. */
  lemma FirstCluster(clusters: seq<seq<Commit>>, window: nat)
    requires Greedy(clusters, window)
    ensures var all := Flatten(clusters);
            && (clusters == [] <==> all == [])
            && (clusters != [] ==>
                  && |clusters[0]| <= |all| && clusters[0] == all[..|clusters[0]|]
                  && Flatten(clusters[1..]) == all[|clusters[0]|..]
                  && (forall i :: 0 <= i < |clusters[0]| ==> all[i].committedAt <= all[0].committedAt + window)
                  && (|clusters[0]| < |all| ==> all[|clusters[0]|].committedAt > all[0].committedAt + window))
  {
  }

  /** There is only one greedy way to cut a history into contiguous clusters. */
  lemma {:induction false} GreedyIsUnique(a: seq<seq<Commit>>, b: seq<seq<Commit>>, window: nat)
    requires Greedy(a, window) && Greedy(b, window) && Flatten(a) == Flatten(b)
    ensures a == b
  {
    FirstCluster(a, window);
    FirstCluster(b, window);
    if a != [] {
      assert |a[0]| == |b[0]|;
      GreedyIsUnique(a[1..], b[1..], window);
      assert a == [a[0]] + a[1..] && b == [b[0]] + b[1..];
    }
  }

  /** The clustering loops: contiguous, exhaustive and greedy. */
  method Clusters(fixes: seq<Commit>, window: nat) returns (clusters: seq<seq<Commit>>)
    requires ByTime(fixes)
    ensures Flatten(clusters) == fixes && Greedy(clusters, window)
  {
    clusters := [];
    var cursor := 0;
    while cursor < |fixes|
      invariant 0 <= cursor <= |fixes| && Flatten(clusters) == fixes[..cursor] && Greedy(clusters, window)
      invariant clusters != [] && cursor < |fixes| ==> Apart(clusters[|clusters| - 1], fixes[cursor..], window)
    {
      hide Greedy, Flatten, Tight, Apart;
      var start := cursor;
      var deadline := fixes[start].committedAt + window;
      var cluster := [fixes[start]];
      cursor := cursor + 1;
      while cursor < |fixes| && fixes[cursor].committedAt <= deadline
        invariant start < cursor <= |fixes| && cluster == fixes[start..cursor]
        invariant forall i :: start <= i < cursor ==> fixes[i].committedAt <= deadline
      {
        cluster := cluster + [fixes[cursor]];
        cursor := cursor + 1;
      }
      FlattenSnoc(clusters, cluster);
      NextCluster(fixes, start, cursor, window);
      GreedySnoc(clusters, cluster, window);
      clusters := clusters + [cluster];
    }
    assert fixes[..|fixes|] == fixes;
  }

  /** A stretch within the deadline is one cluster, and apart from what follows when that is past the deadline. */
  lemma NextCluster(fixes: seq<Commit>, start: nat, end: nat, window: nat)
    requires start < end <= |fixes|
    requires forall i :: start <= i < end ==> fixes[i].committedAt <= fixes[start].committedAt + window
    requires end < |fixes| ==> fixes[end].committedAt > fixes[start].committedAt + window
    ensures fixes[..start] + fixes[start..end] == fixes[..end]
    ensures Tight(fixes[start..end], window) && (end < |fixes| ==> Apart(fixes[start..end], fixes[end..], window))
    ensures forall c :: Apart(c, fixes[start..], window) ==> Apart(c, fixes[start..end], window)
  {
  }

  function Reach(fixes: seq<Commit>, deadline: int): (n: nat)
    ensures n <= |fixes|
    ensures forall i :: 0 <= i < n ==> fixes[i].committedAt <= deadline
    ensures n < |fixes| ==> fixes[n].committedAt > deadline
  {
    if fixes == [] || fixes[0].committedAt > deadline then 0 else 1 + Reach(fixes[1..], deadline)
  }

  /** The clusters, as a function for the report. */
  function ClustersOf(fixes: seq<Commit>, window: nat): seq<seq<Commit>> {
    if fixes == [] then []
    else
      var n := Reach(fixes, fixes[0].committedAt + window);
      [fixes[..n]] + ClustersOf(fixes[n..], window)
  }

  lemma {:induction false} ClustersOfIsGreedy(fixes: seq<Commit>, window: nat)
    ensures Flatten(ClustersOf(fixes, window)) == fixes && Greedy(ClustersOf(fixes, window), window)
  {
    if fixes != [] {
      var n := Reach(fixes, fixes[0].committedAt + window);
      var first, rest := fixes[..n], ClustersOf(fixes[n..], window);
      ClustersOfIsGreedy(fixes[n..], window);
      FirstCluster(rest, window);
      CutAt(fixes, n);
      assert ([first] + rest)[1..] == rest;
      GreedyCons(first, rest, window);
    }
  }

  lemma GreedyCons(first: seq<Commit>, rest: seq<seq<Commit>>, window: nat)
    requires Tight(first, window) && Greedy(rest, window) && (rest != [] ==> Apart(first, rest[0], window))
    ensures Greedy([first] + rest, window) && Flatten([first] + rest) == first + Flatten(rest)
  {
  }

  /* ---------- recurrence candidates ---------- */

  /** `commits_by_sha`: of several commits with one id the last wins. */
  function BySha(commits: seq<Commit>): map<nat, Commit> {
    if commits == [] then map[]
    else BySha(commits[..|commits| - 1])[commits[|commits| - 1].sha := commits[|commits| - 1]]
  }

  lemma {:induction false} ByShaIs(commits: seq<Commit>)
    requires DistinctShas(commits)
    ensures forall c :: c in commits ==> c.sha in BySha(commits) && BySha(commits)[c.sha] == c
    ensures forall sha :: sha in BySha(commits) ==> BySha(commits)[sha] in commits && BySha(commits)[sha].sha == sha
  {
    if commits != [] {
      var first, last := commits[..|commits| - 1], commits[|commits| - 1];
      ByShaIs(first);
      forall c | c in commits && c != last ensures c in first && c.sha != last.sha {
        var i :| 0 <= i < |commits| && commits[i] == c;
        assert first[i] == c && commits[i].sha != commits[|commits| - 1].sha;
      }
    }
  }

  lemma ByShaForgetsOrder(a: seq<Commit>, b: seq<Commit>)
    requires multiset(a) == multiset(b) && DistinctShas(a) && DistinctShas(b)
    ensures BySha(a) == BySha(b)
  {
    ByShaIs(a);
    ByShaIs(b);
    SameElements(a, b);
    var x, y := BySha(a), BySha(b);
    forall sha | sha in x ensures sha in y && y[sha] == x[sha] {
      assert x[sha] in b;
    }
    forall sha | sha in y ensures sha in x {
      assert y[sha] in a;
    }
  }

  lemma SameElements(a: seq<Commit>, b: seq<Commit>)
    requires multiset(a) == multiset(b)
    ensures forall c :: c in a <==> c in b
  {
    forall c ensures c in a <==> c in b {
      assert c in multiset(a) <==> c in multiset(b);
    }
  }

  datatype Candidate = Candidate(bugClass: nat, shas: seq<nat>, affected: set<nat>, first: int, last: int)

  function Ids(entries: seq<Entry>): set<nat> { set i | 0 <= i < |entries| :: entries[i].id }

  function Affected(cluster: seq<Commit>, classes: map<nat, Classification>, members: set<nat>): set<nat> {
    if cluster == [] then {}
    else
      var c := cluster[|cluster| - 1];
      Affected(cluster[..|cluster| - 1], classes, members) + if c.sha in classes then classes[c.sha].affected * members else {}
  }

  function LastAt(cluster: seq<Commit>, bySha: map<nat, Commit>): int
    requires cluster != []
  {
    var last := cluster[|cluster| - 1];
    if last.sha in bySha then bySha[last.sha].committedAt else last.committedAt
  }

  /** A cluster counts as a recurrence when several fixes of one class hit several members. */
  function CandidateOf(cluster: seq<Commit>, bugClass: nat, classes: map<nat, Classification>,
                       members: set<nat>, bySha: map<nat, Commit>): seq<Candidate>
  {
    var affected := Affected(cluster, classes, members);
    if |cluster| < 2 || |affected| < 2 then []
    else [Candidate(bugClass, ShasOf(cluster), affected, cluster[0].committedAt, LastAt(cluster, bySha))]
  }

  function CandidatesIn(clusters: seq<seq<Commit>>, bugClass: nat, classes: map<nat, Classification>,
                        members: set<nat>, bySha: map<nat, Commit>): seq<Candidate>
  {
    if clusters == [] then []
    else CandidatesIn(clusters[..|clusters| - 1], bugClass, classes, members, bySha)
           + CandidateOf(clusters[|clusters| - 1], bugClass, classes, members, bySha)
  }

  function FixesOf(bugClass: nat, classes: map<nat, Classification>, members: set<nat>): Commit -> bool {
    (c: Commit) => c.sha in classes && classes[c.sha].fix && bugClass in classes[c.sha].bugClasses
                   && classes[c.sha].affected * members != {}
  }

  function CandidatesFor(cohort: Cohort, sorted: seq<Commit>, bySha: map<nat, Commit>,
                         classes: map<nat, Classification>, n: nat): seq<Candidate>
    requires n <= |cohort.bugClasses|
  {
    if n == 0 then []
    else
      var b, members := cohort.bugClasses[n - 1], Ids(cohort.members);
      var clusters := ClustersOf(Filter(FixesOf(b, classes, members), sorted), cohort.recurrenceWindow);
      CandidatesFor(cohort, sorted, bySha, classes, n - 1) + CandidatesIn(clusters, b, classes, members, bySha)
  }

  /** `_recurrence_candidates`, over the cohort's bug classes in order. */
  method RecurrenceCandidates(cohort: Cohort, commits: seq<Commit>, classes: map<nat, Classification>)
    returns (candidates: seq<Candidate>)
    ensures candidates == CandidatesFor(cohort, Sorted(commits), BySha(commits), classes, |cohort.bugClasses|)
  {
    hide Sorted, Filter, ClustersOf, Greedy, BySha, CandidatesIn, ByTime, FixesOf, Ids;
    candidates := [];
    var sorted, bySha := Sorted(commits), BySha(commits);
    SortedByTime(commits);
    for n := 0 to |cohort.bugClasses|
      invariant candidates == CandidatesFor(cohort, sorted, bySha, classes, n)
    {
      var found := CandidatesOfClass(cohort, cohort.bugClasses[n], sorted, bySha, classes);
      candidates := candidates + found;
    }
  }

  /** One bug class: its fixes, in order, cut into clusters, each cluster reported. */
  method CandidatesOfClass(cohort: Cohort, bugClass: nat, sorted: seq<Commit>, bySha: map<nat, Commit>,
                           classes: map<nat, Classification>) returns (found: seq<Candidate>)
    requires ByTime(sorted)
    ensures var members, window := Ids(cohort.members), cohort.recurrenceWindow;
            found == CandidatesIn(ClustersOf(Filter(FixesOf(bugClass, classes, members), sorted), window),
                                  bugClass, classes, members, bySha)
  {
    hide Filter, ClustersOf, Greedy, CandidatesIn, ByTime, FixesOf, Ids;
    var members, window := Ids(cohort.members), cohort.recurrenceWindow;
    FilterKeepsTime(FixesOf(bugClass, classes, members), sorted);
    var fixes := Filter(FixesOf(bugClass, classes, members), sorted);
    var clusters := Clusters(fixes, window);
    ClustersOfIsGreedy(fixes, window);
    GreedyIsUnique(clusters, ClustersOf(fixes, window), window);
    found := CollectCandidates(clusters, bugClass, classes, members, bySha);
  }

  method CollectCandidates(clusters: seq<seq<Commit>>, bugClass: nat, classes: map<nat, Classification>,
                           members: set<nat>, bySha: map<nat, Commit>) returns (found: seq<Candidate>)
    ensures found == CandidatesIn(clusters, bugClass, classes, members, bySha)
  {
    found := [];
    for i := 0 to |clusters|
      invariant found == CandidatesIn(clusters[..i], bugClass, classes, members, bySha)
    {
      assert clusters[..i + 1][..i] == clusters[..i];
      found := found + CandidateOf(clusters[i], bugClass, classes, members, bySha);
    }
    assert clusters[..|clusters|] == clusters;
  }

  lemma {:induction false} InsertByTime(c: Commit, s: seq<Commit>)
    requires ByTime(s)
    ensures ByTime(Insert(c, s))
  {
    if s != [] && Before(s[0], c) {
      InsertByTime(c, s[1..]);
      var rest := Insert(c, s[1..]);
      forall j | 0 <= j < |rest| ensures s[0].committedAt <= rest[j].committedAt {
        assert rest[j] in multiset(rest);
        assert rest[j] == c || rest[j] in s[1..];
      }
    }
  }

  lemma {:induction false} SortedByTime(s: seq<Commit>)
    ensures ByTime(Sorted(s))
  {
    if s != [] {
      SortedByTime(s[1..]);
      InsertByTime(s[0], Sorted(s[1..]));
    }
  }

  lemma {:induction false} FilterKeepsTime(p: Commit -> bool, s: seq<Commit>)
    requires ByTime(s)
    ensures ByTime(Filter(p, s))
  {
    if s != [] {
      var first, last := s[..|s| - 1], s[|s| - 1];
      FilterKeepsTime(p, first);
      forall i | 0 <= i < |Filter(p, first)| ensures Filter(p, first)[i].committedAt <= last.committedAt {
        assert Filter(p, first)[i] in first;
      }
    }
  }

  /* ---------- the report ---------- */

  /** A window boundary is formatted to whole seconds. */
  function Truncated(at: int): int { at - at % 1_000_000 }

  function PreWindow(cohort: Cohort): Window {
    Window(Truncated(cohort.completion - cohort.preWindow), Truncated(cohort.completion))
  }

  function PostWindow(cohort: Cohort): Window {
    Window(Truncated(cohort.completion), Truncated(cohort.completion + cohort.postWindow))
  }

  function InWindow(w: Window, excluded: set<nat>, asOf: int): Commit -> bool {
    (c: Commit) => c.sha !in excluded && c.committedAt <= asOf && w.Contains(c.committedAt)
  }

  function FirstWith(sha: nat, history: seq<Commit>): Option<Commit> {
    if history == [] then None
    else if history[0].sha == sha then Some(history[0])
    else FirstWith(sha, history[1..])
  }

  datatype WindowReport = WindowReport(
    window: Window, treated: GroupReport, pooledControl: GroupReport, candidates: seq<Candidate>)

  function ReportOn(cohort: Cohort, w: Window, history: seq<Commit>, classes: map<nat, Classification>, asOf: int): WindowReport {
    var commits := Filter(InWindow(w, cohort.migrations, asOf), history);
    var treated := Filter(Touches(cohort.members), commits);
    WindowReport(w, WithRates(MetricsOf(Sorted(commits), cohort.members, classes)),
                 WithRates(MetricsOf(Sorted(commits), cohort.controls, classes)),
                 CandidatesFor(cohort, Sorted(treated), BySha(treated), classes, |cohort.bugClasses|))
  }

  function BothWindows(cohort: Cohort, history: seq<Commit>, asOf: int): seq<Commit> {
    Filter(InWindow(PreWindow(cohort), cohort.migrations, asOf), history)
      + Filter(InWindow(PostWindow(cohort), cohort.migrations, asOf), history)
  }

  /** What a cohort report rests on: the anchor commit, missing migrations, the index and both windows. */
  datatype Evidence = Evidence(
    anchor: Option<Commit>, missing: set<nat>, touching: map<nat, set<nat>>, pre: WindowReport, post: WindowReport)

  function EvidenceFor(cohort: Cohort, classify: map<nat, set<nat>> -> map<nat, Classification>,
                       history: seq<Commit>, asOf: int): Evidence
  {
    var touching := TouchingIndex(cohort, BothWindows(cohort, history, asOf));
    var classes := classify(touching);
    Evidence(FirstWith(cohort.completionSha, history),
             (set sha | sha in cohort.migrations && FirstWith(sha, history) == None),
             touching, ReportOn(cohort, PreWindow(cohort), history, classes, asOf),
             ReportOn(cohort, PostWindow(cohort), history, classes, asOf))
  }

  /** `_cohort_report` for an active cohort; `decide` turns evidence into reasons and a verdict. */
  function CohortReport<R>(cohort: Cohort, classify: map<nat, set<nat>> -> map<nat, Classification>, decide: Evidence -> R,
                           history: seq<Commit>, asOf: int): R {
    decide(EvidenceFor(cohort, classify, history, asOf))
  }

  /* ---------- order does not matter ---------- */

  lemma SameShaSameCommit(s: seq<Commit>, c: Commit, d: Commit)
    requires DistinctShas(s) && c in s && d in s && c.sha == d.sha
    ensures c == d
  {
  }

  lemma {:induction false} OnceEach(s: seq<Commit>, c: Commit)
    requires DistinctShas(s)
    ensures multiset(s)[c] <= 1
  {
    if s != [] {
      assert s == s[..|s| - 1] + [s[|s| - 1]];
      OnceEach(s[..|s| - 1], c);
      if c == s[|s| - 1] {
        forall i | 0 <= i < |s| - 1 ensures s[i] != c {
        }
        assert c !in s[..|s| - 1];
      }
    }
  }

  lemma Twice(s: seq<Commit>, i: nat, j: nat)
    requires i < j < |s| && s[i] == s[j]
    ensures multiset(s)[s[i]] >= 2
  {
    assert s == s[..j] + s[j..] && s[..j][i] == s[i] && s[j..][0] == s[i];
  }

  lemma DistinctForgetsOrder(a: seq<Commit>, b: seq<Commit>)
    requires multiset(a) == multiset(b) && DistinctShas(a)
    ensures DistinctShas(b)
  {
    forall i, j | 0 <= i < j < |b| ensures b[i].sha != b[j].sha {
      assert b[i] in multiset(a) && b[j] in multiset(a);
      if b[i].sha == b[j].sha {
        SameShaSameCommit(a, b[i], b[j]);
        Twice(b, i, j);
        OnceEach(a, b[i]);
      }
    }
  }

  lemma {:induction false} FirstWithIs(sha: nat, s: seq<Commit>)
    ensures match FirstWith(sha, s)
            case Some(c) => c in s && c.sha == sha
            case None => forall c :: c in s ==> c.sha != sha
  {
    if s != [] {
      FirstWithIs(sha, s[1..]);
      assert s == [s[0]] + s[1..];
    }
  }

  lemma FirstForgetsOrder(sha: nat, a: seq<Commit>, b: seq<Commit>)
    requires multiset(a) == multiset(b) && DistinctShas(a)
    ensures FirstWith(sha, a) == FirstWith(sha, b)
  {
    FirstWithIs(sha, a);
    FirstWithIs(sha, b);
    SameElements(a, b);
  }

  lemma WindowForgetsOrder(cohort: Cohort, w: Window, a: seq<Commit>, b: seq<Commit>,
                           classes: map<nat, Classification>, asOf: int)
    requires multiset(a) == multiset(b) && DistinctShas(a) && DistinctShas(b)
    ensures ReportOn(cohort, w, a, classes, asOf) == ReportOn(cohort, w, b, classes, asOf)
  {
    var p := InWindow(w, cohort.migrations, asOf);
    var x, y := Filter(p, a), Filter(p, b);
    FilterForgetsOrder(p, a, b);
    FilterKeepsDistinct(p, a);
    FilterKeepsDistinct(p, b);
    SortedForgetsOrder(x, y);
    FilterForgetsOrder(Touches(cohort.members), x, y);
    FilterKeepsDistinct(Touches(cohort.members), x);
    FilterKeepsDistinct(Touches(cohort.members), y);
    SortedForgetsOrder(Filter(Touches(cohort.members), x), Filter(Touches(cohort.members), y));
    ByShaForgetsOrder(Filter(Touches(cohort.members), x), Filter(Touches(cohort.members), y));
  }

  lemma WindowsAreDistinct(cohort: Cohort, history: seq<Commit>, asOf: int)
    requires DistinctShas(history)
    ensures DistinctShas(BothWindows(cohort, history, asOf))
  {
    var p, q := InWindow(PreWindow(cohort), cohort.migrations, asOf), InWindow(PostWindow(cohort), cohort.migrations, asOf);
    FilterKeepsDistinct(p, history);
    FilterKeepsDistinct(q, history);
    forall c, d | c in Filter(p, history) && d in Filter(q, history) ensures c.sha != d.sha {
      if c.sha == d.sha {
        SameShaSameCommit(history, c, d);
      }
    }
    AppendDistinct(Filter(p, history), Filter(q, history));
  }

  lemma AppendDistinct(a: seq<Commit>, b: seq<Commit>)
    requires DistinctShas(a) && DistinctShas(b) && forall c, d :: c in a && d in b ==> c.sha != d.sha
    ensures DistinctShas(a + b)
  {
  }

  /** With distinct commit ids, no permutation of the history changes a cohort's report. */
  lemma ReportForgetsOrder<R>(cohort: Cohort, classify: map<nat, set<nat>> -> map<nat, Classification>, decide: Evidence -> R,
                              a: seq<Commit>, b: seq<Commit>, asOf: int)
    requires multiset(a) == multiset(b) && DistinctShas(a)
    ensures CohortReport(cohort, classify, decide, a, asOf) == CohortReport(cohort, classify, decide, b, asOf)
  {
    hide CohortReport, ReportOn, TouchingIndex, BothWindows, PreWindow, PostWindow;
    DistinctForgetsOrder(a, b);
    EvidenceForgetsOrder(cohort, classify, a, b, asOf);
    assert CohortReport(cohort, classify, decide, a, asOf) == CohortReport(cohort, classify, decide, b, asOf) by {
      SameEvidence(cohort, classify, decide, a, b, asOf);
    }
  }

  lemma SameEvidence<R>(cohort: Cohort, classify: map<nat, set<nat>> -> map<nat, Classification>, decide: Evidence -> R,
                        a: seq<Commit>, b: seq<Commit>, asOf: int)
    requires EvidenceFor(cohort, classify, a, asOf) == EvidenceFor(cohort, classify, b, asOf)
    ensures CohortReport(cohort, classify, decide, a, asOf) == CohortReport(cohort, classify, decide, b, asOf)
  {
  }

  lemma TouchingForgetsOrder(cohort: Cohort, a: seq<Commit>, b: seq<Commit>, asOf: int)
    requires multiset(a) == multiset(b) && DistinctShas(a) && DistinctShas(b)
    ensures TouchingIndex(cohort, BothWindows(cohort, a, asOf)) == TouchingIndex(cohort, BothWindows(cohort, b, asOf))
  {
    hide TouchingIndex;
    FilterForgetsOrder(InWindow(PreWindow(cohort), cohort.migrations, asOf), a, b);
    FilterForgetsOrder(InWindow(PostWindow(cohort), cohort.migrations, asOf), a, b);
    WindowsAreDistinct(cohort, a, asOf);
    WindowsAreDistinct(cohort, b, asOf);
    IndexForgetsOrder(cohort, BothWindows(cohort, a, asOf), BothWindows(cohort, b, asOf));
  }

  lemma EvidenceForgetsOrder(cohort: Cohort, classify: map<nat, set<nat>> -> map<nat, Classification>,
                             a: seq<Commit>, b: seq<Commit>, asOf: int)
    requires multiset(a) == multiset(b) && DistinctShas(a) && DistinctShas(b)
    ensures EvidenceFor(cohort, classify, a, asOf) == EvidenceFor(cohort, classify, b, asOf)
  {
    hide ReportOn, TouchingIndex, BothWindows, PreWindow, PostWindow, FirstWith, DistinctShas;
    forall sha ensures FirstWith(sha, a) == FirstWith(sha, b) {
      FirstForgetsOrder(sha, a, b);
    }
    TouchingForgetsOrder(cohort, a, b, asOf);
    var classes := classify(TouchingIndex(cohort, BothWindows(cohort, a, asOf)));
    WindowForgetsOrder(cohort, PreWindow(cohort), a, b, classes, asOf);
    WindowForgetsOrder(cohort, PostWindow(cohort), a, b, classes, asOf);
  }

  /** `build_report`: the cohorts in order; an inactive one is reported without looking at the history. */
  function BuildReport<R>(cohorts: seq<Cohort>, classify: Cohort -> map<nat, set<nat>> -> map<nat, Classification>,
                          decide: Cohort -> Evidence -> R, pending: Cohort -> R, history: seq<Commit>, asOf: int): seq<R>
  {
    if cohorts == [] then []
    else
      var c := cohorts[|cohorts| - 1];
      BuildReport(cohorts[..|cohorts| - 1], classify, decide, pending, history, asOf)
        + [if c.active then CohortReport(c, classify(c), decide(c), history, asOf) else pending(c)]
  }

  /** With distinct commit ids, no permutation of the history changes the report. */
  lemma {:induction false} WholeReportForgetsOrder<R>(
    cohorts: seq<Cohort>, classify: Cohort -> map<nat, set<nat>> -> map<nat, Classification>, decide: Cohort -> Evidence -> R,
    pending: Cohort -> R, a: seq<Commit>, b: seq<Commit>, asOf: int)
    requires multiset(a) == multiset(b) && DistinctShas(a)
    ensures BuildReport(cohorts, classify, decide, pending, a, asOf) == BuildReport(cohorts, classify, decide, pending, b, asOf)
  {
    hide CohortReport, DistinctShas;
    if cohorts != [] {
      var c := cohorts[|cohorts| - 1];
      WholeReportForgetsOrder(cohorts[..|cohorts| - 1], classify, decide, pending, a, b, asOf);
      ReportForgetsOrder(c, classify(c), decide(c), a, b, asOf);
    }
  }
}
