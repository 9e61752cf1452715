/**
 * What the numbers of the cohort report mean: which commits a window counts, what touching, changed lines,
 * fixes and rates are, and which clusters are reported as recurrences.
 */
module ReportLaws {
  import opened Prelude
  import opened RefactorMetrics

  /* ---------- touching ---------- */

  /** Entry `i` is the last one with its id. */
  predicate Counts(entries: seq<Entry>, i: int) {
    0 <= i < |entries| && forall j :: i < j < |entries| ==> entries[j].id != entries[i].id
  }

  lemma {:induction false} EntryPathsAre(entries: seq<Entry>, id: nat)
    ensures id in EntryPaths(entries) <==> exists i :: Counts(entries, i) && entries[i].id == id
    ensures forall i :: Counts(entries, i) && entries[i].id == id ==>
              id in EntryPaths(entries) && EntryPaths(entries)[id] == entries[i].paths
  {
    if entries != [] {
      var n := |entries| - 1;
      var first := entries[..n];
      EntryPathsAre(first, id);
      if entries[n].id == id {
        assert Counts(entries, n);
      } else {
        forall i | 0 <= i < n && entries[i].id == id
          ensures first[i] == entries[i] && (Counts(entries, i) <==> Counts(first, i))
        {
          EarlierCounts(entries, i);
        }
        assert forall i :: Counts(first, i) && first[i].id == id ==> entries[i].id == id;
        assert forall i :: Counts(entries, i) && entries[i].id == id ==> i < n;
      }
    }
  }

  lemma EarlierCounts(entries: seq<Entry>, i: nat)
    requires i < |entries| - 1 && entries[i].id != entries[|entries| - 1].id
    ensures var first := entries[..|entries| - 1]; Counts(entries, i) <==> Counts(first, i)
  {
    var first := entries[..|entries| - 1];
    forall j | 0 <= j < |first| ensures first[j] == entries[j] {
    }
    if Counts(first, i) {
      forall j | i < j < |entries| ensures entries[j].id != entries[i].id {
        assert j < |first| ==> first[j] == entries[j];
      }
    }
    if Counts(entries, i) {
      forall j | i < j < |first| ensures first[j].id != first[i].id {
        assert first[j] == entries[j];
      }
    }
  }

  /** A commit touches an entry when it changes one of the paths the last entry of that id registers. */
  lemma MatchedExactly(c: Commit, entries: seq<Entry>, id: nat)
    ensures id in Matched(c, entries)
       <==> exists i, f :: Counts(entries, i) && entries[i].id == id && f in c.files && f.path in entries[i].paths
  {
    EntryPathsAre(entries, id);
  }

  lemma {:induction false} RegisteredExactly(entries: seq<Entry>, path: string)
    ensures path in RegisteredPaths(entries) <==> exists i :: 0 <= i < |entries| && path in entries[i].paths
  {
    if entries != [] {
      var first := entries[..|entries| - 1];
      RegisteredExactly(first, path);
      if path in RegisteredPaths(first) {
        var i :| 0 <= i < |first| && path in first[i].paths;
        assert entries[i] == first[i];
      }
      if i :| 0 <= i < |entries| && path in entries[i].paths {
        assert i < |first| ==> first[i] == entries[i];
      }
    }
  }

  /** Changed lines add up over files, and a file counts with all its lines when its path is registered. */
  lemma {:induction false} LinesAddUp(a: seq<ChangedFile>, b: seq<ChangedFile>, paths: set<string>)
    ensures LinesIn(a + b, paths) == LinesIn(a, paths) + LinesIn(b, paths)
    ensures |a| == 1 ==> LinesIn(a, paths) == if a[0].path in paths then a[0].lines else 0
  {
    if |a| == 1 {
      assert a[..0] == [] && LinesIn(a[..0], paths) == 0;
    }
    if b == [] {
      assert a + b == a && LinesIn([], paths) == 0;
    } else {
      assert (a + b)[..|a + b| - 1] == a + b[..|b| - 1];
      LinesAddUp(a, b[..|b| - 1], paths);
    }
  }

  lemma FixExactly(c: Commit, matched: set<nat>, classes: map<nat, Classification>)
    ensures IsFix(c, matched, classes)
       <==> c.sha in classes && classes[c.sha].fix && exists id :: id in matched && id in classes[c.sha].affected
  {
    if c.sha in classes && classes[c.sha].fix {
      Meet(classes[c.sha].affected, matched);
    }
  }

  lemma Meet(a: set<nat>, b: set<nat>)
    ensures a * b != {} <==> exists id :: id in b && id in a
  {
    if a * b != {} {
      var id :| id in a * b;
      assert id in b && id in a;
    }
    forall id | id in b && id in a ensures a * b != {} {
      assert id in a * b;
    }
  }

  /** Metrics add up over commits, and one commit counts exactly when it touches an entry. */
  lemma {:induction false} MetricsAddUp(a: seq<Commit>, b: seq<Commit>, entries: seq<Entry>, classes: map<nat, Classification>)
    ensures var m, p, q := MetricsOf(a + b, entries, classes), MetricsOf(a, entries, classes), MetricsOf(b, entries, classes);
            && m.touching == p.touching + q.touching && m.fixes == p.fixes + q.fixes
            && m.changedLines == p.changedLines + q.changedLines
  {
    hide Matched, Lines, IsFix;
    if b == [] {
      assert a + b == a;
    } else {
      assert (a + b)[..|a + b| - 1] == a + b[..|b| - 1];
      MetricsAddUp(a, b[..|b| - 1], entries, classes);
    }
  }

  lemma MetricsOfOne(c: Commit, entries: seq<Entry>, classes: map<nat, Classification>)
    ensures MetricsOf([c], entries, classes)
         == if Matched(c, entries) == {} then Metrics([], 0, [])
            else Metrics([c.sha], Lines(c, entries), if IsFix(c, Matched(c, entries), classes) then [c.sha] else [])
  {
    assert [c][..0] == [] && MetricsOf([], entries, classes) == Metrics([], 0, []);
  }

  /** A rate is the nearest millionth, ties to even; fixes per thousand lines are a thousandth of it each. */
  lemma RatesAreNearest(m: Metrics)
    ensures var r := WithRates(m);
            && (r.fixDensity == None <==> m.touching == []) && (r.fixesPerKloc == None <==> m.changedLines == 0)
            && (r.fixDensity.Some? ==> NearestRate(r.fixDensity.value, 1_000_000 * |m.fixes|, |m.touching|))
            && (r.fixesPerKloc.Some? ==> NearestRate(r.fixesPerKloc.value, 1_000_000_000 * |m.fixes|, m.changedLines))
  {
    if m.touching != [] {
      MillionthsNearest(|m.fixes|, |m.touching|);
    }
    if m.changedLines != 0 {
      MillionthsNearest(|m.fixes| * 1000, m.changedLines);
    }
  }

  /** `r` is the integer nearest to `n / d`. */
  predicate NearestRate(r: int, n: int, d: nat) { -(d as int) <= 2 * (r * d - n) <= d }

  lemma MillionthsNearest(n: nat, d: nat)
    requires d > 0
    ensures Millionths(n, d).Some? && NearestRate(Millionths(n, d).value, 1_000_000 * n, d)
  {
    hide RoundHalfEven;
    var r := Millionths(n, d).value;
    var exact, whole := n as real * 1000000.0, d as real;
    TimesBack(r as real, exact, whole);
    assert (1_000_000 * n) as real == exact;
    assert (r * d) as real == r as real * whole;
  }

  lemma TimesBack(r: real, n: real, d: real)
    requires d > 0.0 && -0.5 <= r - n / d <= 0.5
    ensures -d <= 2.0 * (r * d - n) <= d
  {
    var q := n / d;
    assert q * d == n;
    assert (r - q) * d == r * d - n;
    Bounded(r - q, d);
  }

  lemma Bounded(e: real, d: real)
    requires d > 0.0 && -0.5 <= e <= 0.5
    ensures -0.5 * d <= e * d <= 0.5 * d
  {
  }

  /* ---------- the touching index ---------- */

  lemma {:induction false} IndexExactly(cohort: Cohort, commits: seq<Commit>, sha: nat, id: nat)
    ensures (sha in TouchingIndex(cohort, commits) && id in TouchingIndex(cohort, commits)[sha])
       <==> exists i :: 0 <= i < |commits| && commits[i].sha == sha && id in Touched(cohort, commits[i])
    ensures sha in TouchingIndex(cohort, commits) ==> TouchingIndex(cohort, commits)[sha] != {}
  {
    hide Touched;
    if commits != [] {
      var n := |commits| - 1;
      var first := commits[..n];
      IndexExactly(cohort, first, sha, id);
      if sha in TouchingIndex(cohort, first) && id in TouchingIndex(cohort, first)[sha] {
        var i :| 0 <= i < |first| && first[i].sha == sha && id in Touched(cohort, first[i]);
        assert commits[i] == first[i];
      }
      if i :| 0 <= i < |commits| && commits[i].sha == sha && id in Touched(cohort, commits[i]) {
        assert i < n ==> first[i] == commits[i];
      }
    }
  }

  /** A cohort is touched through its members and through its controls. */
  lemma TouchedExactly(cohort: Cohort, c: Commit, id: nat)
    ensures id in Touched(cohort, c) <==> id in Matched(c, cohort.members) || id in Matched(c, cohort.controls)
  {
  }

  /* ---------- windows ---------- */

  /** The second a time lies in. */
  function Second(at: int): int { at / 1_000_000 }

  /** The windows end and begin with the second of completion, and count whole seconds. */
  lemma WindowsExactly(cohort: Cohort, at: int)
    ensures PreWindow(cohort).Contains(at)
       <==> Second(cohort.completion - cohort.preWindow) <= Second(at) < Second(cohort.completion)
    ensures PostWindow(cohort).Contains(at)
       <==> Second(cohort.completion) <= Second(at) < Second(cohort.completion + cohort.postWindow)
  {
    FromSecond(cohort.completion - cohort.preWindow, at);
    FromSecond(cohort.completion, at);
    FromSecond(cohort.completion + cohort.postWindow, at);
  }

  lemma FromSecond(x: int, at: int)
    ensures Truncated(x) <= at <==> Second(x) <= Second(at)
  {
  }

  /** A window counts the commits in it up to the report's date that are not migrations, each as often as it occurs. */
  lemma WindowCounts(cohort: Cohort, w: Window, history: seq<Commit>, asOf: int, c: Commit)
    ensures multiset(Filter(InWindow(w, cohort.migrations, asOf), history))[c]
         == if c.sha !in cohort.migrations && c.committedAt <= asOf && w.Contains(c.committedAt)
            then multiset(history)[c] else 0
  {
    FilterCounts(InWindow(w, cohort.migrations, asOf), history, c);
  }

  lemma {:induction false} FirstWithExactly(sha: nat, history: seq<Commit>)
    ensures match FirstWith(sha, history)
            case None => forall i :: 0 <= i < |history| ==> history[i].sha != sha
            case Some(c) => exists i :: 0 <= i < |history| && history[i] == c && c.sha == sha
                                       && forall j :: 0 <= j < i ==> history[j].sha != sha
  {
    if history != [] && history[0].sha != sha {
      FirstWithExactly(sha, history[1..]);
      if FirstWith(sha, history).Some? {
        var i :| 0 <= i < |history| - 1 && history[1..][i] == FirstWith(sha, history).value
                 && forall j :: 0 <= j < i ==> history[1..][j].sha != sha;
        assert history[i + 1] == history[1..][i];
        forall j | 0 <= j < i + 1 ensures history[j].sha != sha {
          if j > 0 { assert history[j] == history[1..][j - 1]; }
        }
      }
    }
  }

  /** A migration is missing when the history has no commit of that id. */
  lemma MissingExactly(cohort: Cohort, classify: map<nat, set<nat>> -> map<nat, Classification>, history: seq<Commit>,
                       asOf: int, sha: nat)
    ensures sha in EvidenceFor(cohort, classify, history, asOf).missing
       <==> sha in cohort.migrations && forall i :: 0 <= i < |history| ==> history[i].sha != sha
  {
    FirstWithExactly(sha, history);
  }

  /** Treated commits are those that touch members, controls those that touch controls, in order of time. */
  lemma GroupsExactly(cohort: Cohort, w: Window, history: seq<Commit>, classes: map<nat, Classification>, asOf: int)
    ensures var r, commits := ReportOn(cohort, w, history, classes, asOf),
                              Sorted(Filter(InWindow(w, cohort.migrations, asOf), history));
            && r.window == w && r.treated.metrics.touching == ShasOf(Filter(Touches(cohort.members), commits))
            && r.pooledControl.metrics.touching == ShasOf(Filter(Touches(cohort.controls), commits))
            && ByTime(commits)
  {
    hide Sorted, Filter, ByTime, CandidatesFor, BySha, InWindow;
    var commits := Sorted(Filter(InWindow(w, cohort.migrations, asOf), history));
    SortedByTime(Filter(InWindow(w, cohort.migrations, asOf), history));
    MetricsList(commits, cohort.members, classes);
    MetricsList(commits, cohort.controls, classes);
  }

  /** One report for each cohort, in order: of its evidence when it is active, and a pending one otherwise. */
  lemma {:induction false} OneReportEach<R>(
    cohorts: seq<Cohort>, classify: Cohort -> map<nat, set<nat>> -> map<nat, Classification>, decide: Cohort -> Evidence -> R,
    pending: Cohort -> R, history: seq<Commit>, asOf: int, k: nat)
    requires k < |cohorts|
    ensures var report, c := BuildReport(cohorts, classify, decide, pending, history, asOf), cohorts[k];
            && |report| == |cohorts|
            && report[k] == if c.active then decide(c)(EvidenceFor(c, classify(c), history, asOf)) else pending(c)
  {
    hide EvidenceFor;
    var n := |cohorts| - 1;
    BuildReportLength(cohorts[..n], classify, decide, pending, history, asOf);
    if k < n {
      OneReportEach(cohorts[..n], classify, decide, pending, history, asOf, k);
    }
  }

  lemma {:induction false} BuildReportLength<R>(
    cohorts: seq<Cohort>, classify: Cohort -> map<nat, set<nat>> -> map<nat, Classification>, decide: Cohort -> Evidence -> R,
    pending: Cohort -> R, history: seq<Commit>, asOf: int)
    ensures |BuildReport(cohorts, classify, decide, pending, history, asOf)| == |cohorts|
  {
    hide CohortReport;
    if cohorts != [] {
      BuildReportLength(cohorts[..|cohorts| - 1], classify, decide, pending, history, asOf);
    }
  }

  /* ---------- recurrences ---------- */

  lemma {:induction false} AffectedExactly(cluster: seq<Commit>, classes: map<nat, Classification>, members: set<nat>, id: nat)
    ensures id in Affected(cluster, classes, members)
       <==> id in members && exists i :: 0 <= i < |cluster| && cluster[i].sha in classes && id in classes[cluster[i].sha].affected
  {
    if cluster != [] {
      var first := cluster[..|cluster| - 1];
      AffectedExactly(first, classes, members, id);
      if id in members {
        if i :| 0 <= i < |first| && first[i].sha in classes && id in classes[first[i].sha].affected {
          assert cluster[i] == first[i];
        }
        if i :| 0 <= i < |cluster| && cluster[i].sha in classes && id in classes[cluster[i].sha].affected {
          assert i < |first| ==> first[i] == cluster[i];
        }
      }
    }
  }

  lemma FixesExactly(bugClass: nat, classes: map<nat, Classification>, members: set<nat>, c: Commit)
    ensures FixesOf(bugClass, classes, members)(c)
       <==> c.sha in classes && classes[c.sha].fix && bugClass in classes[c.sha].bugClasses
            && exists id :: id in members && id in classes[c.sha].affected
  {
    if c.sha in classes {
      Meet(classes[c.sha].affected, members);
    }
  }

  ghost predicate Several(s: set<nat>) { exists a, b :: a in s && b in s && a != b }

  lemma SeveralAreTwo(s: set<nat>)
    ensures Several(s) <==> |s| >= 2
  {
    if |s| >= 2 {
      var a :| a in s;
      var rest := s - {a};
      assert |rest| == |s| - 1;
      var b :| b in rest;
      assert a in s && b in s && a != b;
    }
    if Several(s) {
      var a, b :| a in s && b in s && a != b;
      assert s == (s - {a, b}) + {a, b};
      assert |s| == |s - {a, b}| + |{a, b}|;
    }
  }

  /** A cluster is reported exactly when it has more than one fix and two members are affected by its fixes. */
  lemma ReportedExactly(cluster: seq<Commit>, bugClass: nat, classes: map<nat, Classification>, members: set<nat>,
                        bySha: map<nat, Commit>)
    requires cluster != []
    ensures var r := CandidateOf(cluster, bugClass, classes, members, bySha);
            && |r| <= 1
            && (r != [] <==> |cluster| > 1 && Several(Affected(cluster, classes, members)))
            && (r != [] ==>
                  && r[0].bugClass == bugClass && r[0].affected == Affected(cluster, classes, members)
                  && |r[0].shas| == |cluster| && (forall i :: 0 <= i < |cluster| ==> r[0].shas[i] == cluster[i].sha)
                  && r[0].first == cluster[0].committedAt
                  && r[0].last == LastAt(cluster, bySha))
  {
    SeveralAreTwo(Affected(cluster, classes, members));
    forall i | 0 <= i < |cluster| ensures |ShasOf(cluster)| == |cluster| && ShasOf(cluster)[i] == cluster[i].sha {
      ShaAt(cluster, i);
    }
  }

  lemma {:induction false} ShaAt(commits: seq<Commit>, i: nat)
    requires i < |commits|
    ensures |ShasOf(commits)| == |commits| && ShasOf(commits)[i] == commits[i].sha
  {
    var n := |commits| - 1;
    if i < n {
      ShaAt(commits[..n], i);
    } else if n > 0 {
      ShaAt(commits[..n], 0);
    }
  }

  lemma IdsExactly(entries: seq<Entry>, id: nat)
    ensures id in Ids(entries) <==> exists e :: e in entries && e.id == id
  {
    forall e | e in entries ensures e.id in Ids(entries) {
      var i :| 0 <= i < |entries| && entries[i] == e;
    }
    if id in Ids(entries) {
      var i :| 0 <= i < |entries| && entries[i].id == id;
      assert entries[i] in entries;
    }
  }

  /** Of several commits with the id of the last fix, the last one in the list dates the end. */
  lemma {:induction false} EndIsOfLastListed(cluster: seq<Commit>, commits: seq<Commit>, i: nat)
    requires cluster != [] && i < |commits| && commits[i].sha == cluster[|cluster| - 1].sha
    requires forall j :: i < j < |commits| ==> commits[j].sha != commits[i].sha
    ensures LastAt(cluster, BySha(commits)) == commits[i].committedAt
  {
    var n := |commits| - 1;
    if i < n {
      assert commits[n].sha != commits[i].sha;
      EndIsOfLastListed(cluster, commits[..n], i);
      LastListed(commits[..n], i);
    }
  }

  lemma {:induction false} LastListed(commits: seq<Commit>, i: nat)
    requires i < |commits|
    ensures commits[i].sha in BySha(commits)
  {
    var n := |commits| - 1;
    if i < n {
      LastListed(commits[..n], i);
    }
  }

  /** With distinct ids a recurrence ends when the last fix of its cluster was committed. */
  lemma LastIsLast(cluster: seq<Commit>, commits: seq<Commit>)
    requires cluster != [] && DistinctShas(commits) && cluster[|cluster| - 1] in commits
    ensures LastAt(cluster, BySha(commits)) == cluster[|cluster| - 1].committedAt
  {
    var last := cluster[|cluster| - 1];
    ByShaIs(commits);
  }

  /** The clusters of one bug class. */
  function ClustersFor(cohort: Cohort, sorted: seq<Commit>, classes: map<nat, Classification>, bugClass: nat): seq<seq<Commit>> {
    ClustersOf(Filter(FixesOf(bugClass, classes, Ids(cohort.members)), sorted), cohort.recurrenceWindow)
  }

  /** `r` is what is reported of the `k`-th cluster of the `n`-th bug class. */
  ghost predicate ReportedFor(cohort: Cohort, sorted: seq<Commit>, bySha: map<nat, Commit>,
                              classes: map<nat, Classification>, n: nat, k: nat, r: Candidate)
    requires n < |cohort.bugClasses|
  {
    var clusters := ClustersFor(cohort, sorted, classes, cohort.bugClasses[n]);
    k < |clusters| && CandidateOf(clusters[k], cohort.bugClasses[n], classes, Ids(cohort.members), bySha) == [r]
  }

  lemma {:induction false} CandidatesInExactly(
    clusters: seq<seq<Commit>>, bugClass: nat, classes: map<nat, Classification>, members: set<nat>,
    bySha: map<nat, Commit>, r: Candidate)
    ensures r in CandidatesIn(clusters, bugClass, classes, members, bySha)
       <==> exists k :: 0 <= k < |clusters| && CandidateOf(clusters[k], bugClass, classes, members, bySha) == [r]
  {
    hide CandidateOf;
    if clusters != [] {
      var n := |clusters| - 1;
      var first, last := clusters[..n], CandidateOf(clusters[n], bugClass, classes, members, bySha);
      CandidatesInExactly(first, bugClass, classes, members, bySha, r);
      AtMostOne(clusters[n], bugClass, classes, members, bySha);
      if k :| 0 <= k < |first| && CandidateOf(first[k], bugClass, classes, members, bySha) == [r] {
        assert clusters[k] == first[k];
      }
      if k :| 0 <= k < |clusters| && CandidateOf(clusters[k], bugClass, classes, members, bySha) == [r] {
        assert k < n ==> first[k] == clusters[k];
      }
    }
  }

  lemma AtMostOne(cluster: seq<Commit>, bugClass: nat, classes: map<nat, Classification>, members: set<nat>,
                  bySha: map<nat, Commit>)
    ensures |CandidateOf(cluster, bugClass, classes, members, bySha)| <= 1
  {
  }

  /** Recurrences are what is reported of the clusters of the bug classes, all of it and nothing else. */
  lemma {:induction false} RecurrencesExactly(
    cohort: Cohort, sorted: seq<Commit>, bySha: map<nat, Commit>, classes: map<nat, Classification>, m: nat, r: Candidate)
    requires m <= |cohort.bugClasses|
    ensures r in CandidatesFor(cohort, sorted, bySha, classes, m)
       <==> exists n: nat, k: nat :: n < m && ReportedFor(cohort, sorted, bySha, classes, n, k, r)
  {
    hide CandidatesIn, CandidateOf, Ids, FixesOf, Filter, ClustersOf;
    if m > 0 {
      RecurrencesExactly(cohort, sorted, bySha, classes, m - 1, r);
      var b := cohort.bugClasses[m - 1];
      var clusters := ClustersFor(cohort, sorted, classes, b);
      CandidatesInExactly(clusters, b, classes, Ids(cohort.members), bySha, r);
      if k: nat :| k < |clusters| && CandidateOf(clusters[k], b, classes, Ids(cohort.members), bySha) == [r] {
        assert ReportedFor(cohort, sorted, bySha, classes, m - 1, k, r);
      }
    }
  }
}
