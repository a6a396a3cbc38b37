/** What the resolution promises: the stacks are maximal runs of at least two
    consecutive sorted candidates, in order and disjoint, whose members agree
    with the first member; no stack is missed; and the result depends neither
    on the order of the input nor, for directories, on the classifiers. */
module StackProperties {
  import opened Strings
  import opened Linq
  import opened StackModel

  /** A stack the expression loop commits for the entry at `i` is a run that
      starts at `i`. */
  lemma {:induction false} TryExpressionsFindsRun(st: Stacking, list: seq<PortableFileInfo>, i: nat, expressionIndex: nat, offset: nat)
    requires Advancing(st)
    requires i < |list| && expressionIndex <= |st.expressions| && offset <= |GetRegexInput(list[i])|
    ensures var run := TryExpressions(st, list, i, expressionIndex, offset);
      run.Some? ==> run.value.start == i && IsRun(st, list, run.value)
    decreases |st.expressions| - expressionIndex, |GetRegexInput(list[i])| - offset
  {
    if expressionIndex < |st.expressions| {
      var exp := st.expressions[expressionIndex];
      match FindMatch(st, list[i], exp, offset)
      case None =>
        TryExpressionsFindsRun(st, list, i, expressionIndex + 1, 0);
      case Some(m1) =>
        var end := ScanEnd(st, list, exp, offset, m1, i + 1);
        if end < i + 2 && end < |list| {
          if Compare(m1, FindMatch(st, list[end], exp, offset)) == FalsePositive {
            TryExpressionsFindsRun(st, list, i, expressionIndex, m1.ignoreIndex);
          } else {
            TryExpressionsFindsRun(st, list, i, expressionIndex + 1, 0);
          }
        }
    }
  }

  /** Each run in `runs` is the one the expression loop commits at its
      first entry, and each ends no later than the next one starts. */
  ghost predicate OrderedRuns(st: Stacking, list: seq<PortableFileInfo>, runs: seq<Run>)
    requires Advancing(st)
  {
    (forall k :: 0 <= k < |runs| ==> Committed(st, list, runs[k])) && RunsInOrder(runs)
  }

  /** `run` is a run, and the one the expression loop commits at its first
      entry. */
  ghost predicate Committed(st: Stacking, list: seq<PortableFileInfo>, run: Run)
    requires Advancing(st)
  {
    IsRun(st, list, run) && TryExpressions(st, list, run.start, 0, 0) == Some(run)
  }

  /** Each run ends no later than the next one starts. */
  ghost predicate RunsInOrder(runs: seq<Run>) {
    forall k, l :: 0 <= k < l < |runs| ==> runs[k].end <= runs[l].start
  }

  /** Putting a committed run in front of committed runs gives committed
      runs. */
  lemma CommittedCons(st: Stacking, list: seq<PortableFileInfo>, run: Run, rest: seq<Run>)
    requires Advancing(st)
    requires Committed(st, list, run)
    requires forall k :: 0 <= k < |rest| ==> Committed(st, list, rest[k])
    ensures forall k :: 0 <= k < |[run] + rest| ==> Committed(st, list, ([run] + rest)[k])
  {
    var runs := [run] + rest;
    forall k | 0 <= k < |runs|
      ensures Committed(st, list, runs[k])
    {
      if k > 0 {
        assert runs[k] == rest[k - 1];
      }
    }
  }

  /** Putting a run that ends no later than the next runs start in front of
      runs in order gives runs in order. */
  lemma InOrderCons(run: Run, rest: seq<Run>)
    requires RunsInOrder(rest)
    requires forall k :: 0 <= k < |rest| ==> run.end <= rest[k].start
    ensures RunsInOrder([run] + rest)
  {
    var runs := [run] + rest;
    forall k, l | 0 <= k < l < |runs|
      ensures runs[k].end <= runs[l].start
    {
      assert runs[l] == rest[l - 1];
      if k > 0 {
        assert runs[k] == rest[k - 1];
      }
    }
  }

  /** A run the expression loop commits at `i` is committed. */
  lemma CommittedAt(st: Stacking, list: seq<PortableFileInfo>, i: nat)
    requires Advancing(st) && i < |list| && TryExpressions(st, list, i, 0, 0).Some?
    ensures Committed(st, list, TryExpressions(st, list, i, 0, 0).value)
  {
    TryExpressionsFindsRun(st, list, i, 0, 0);
  }

  /** Putting a committed run in front of ordered runs that start no earlier
      than it ends gives ordered runs. */
  lemma OrderedRunsCons(st: Stacking, list: seq<PortableFileInfo>, run: Run, rest: seq<Run>, runs: seq<Run>)
    requires Advancing(st) && Committed(st, list, run) && OrderedRuns(st, list, rest)
    requires forall k :: 0 <= k < |rest| ==> run.end <= rest[k].start
    requires runs == [run] + rest
    ensures OrderedRuns(st, list, runs)
  {
    CommittedCons(st, list, run, rest);
    InOrderCons(run, rest);
  }

  /** The runs found from `i` on are ordered runs. */
  lemma {:induction false} ScanFromFindsOrderedRuns(st: Stacking, list: seq<PortableFileInfo>, i: nat)
    requires Advancing(st) && i <= |list|
    ensures OrderedRuns(st, list, ScanFrom(st, list, i))
    decreases |list| - i
  {
    if i == |list| {
      assert ScanFrom(st, list, i) == [];
    } else {
      var first := TryExpressions(st, list, i, 0, 0);
      if first.Some? {
        var rest := ScanFrom(st, list, first.value.end);
        ScanFromFindsOrderedRuns(st, list, first.value.end);
        CommittedAt(st, list, i);
        assert ScanFrom(st, list, i) == [first.value] + rest;
        OrderedRunsCons(st, list, first.value, rest, ScanFrom(st, list, i));
        assert OrderedRuns(st, list, ScanFrom(st, list, i));
      } else {
        ScanFromFindsOrderedRuns(st, list, i + 1);
        assert ScanFrom(st, list, i) == ScanFrom(st, list, i + 1);
        assert OrderedRuns(st, list, ScanFrom(st, list, i));
      }
    }
  }

  /** Entry `p` lies in one of `runs`. */
  ghost predicate InSomeRun(runs: seq<Run>, p: nat) {
    exists k :: 0 <= k < |runs| && runs[k].start <= p < runs[k].end
  }

  lemma InSomeRunCons(run: Run, rest: seq<Run>, p: nat)
    requires run.start <= p < run.end || InSomeRun(rest, p)
    ensures InSomeRun([run] + rest, p)
  {
    var runs := [run] + rest;
    if run.start <= p < run.end {
      assert runs[0] == run;
    } else {
      var k :| 0 <= k < |rest| && rest[k].start <= p < rest[k].end;
      assert runs[k + 1] == rest[k];
    }
  }

  /** No stack is missed: every entry from `i` on for which the expression
      loop would commit a stack lies in one of the runs found. */
  lemma {:induction false} ScanFromMissesNothing(st: Stacking, list: seq<PortableFileInfo>, i: nat)
    requires Advancing(st) && i <= |list|
    ensures forall p :: i <= p < |list| && TryExpressions(st, list, p, 0, 0).Some? ==>
      InSomeRun(ScanFrom(st, list, i), p)
    decreases |list| - i
  {
    if i < |list| {
      var runs := ScanFrom(st, list, i);
      var first := TryExpressions(st, list, i, 0, 0);
      if first.Some? {
        var run := first.value;
        var rest := ScanFrom(st, list, run.end);
        ScanFromMissesNothing(st, list, run.end);
        assert runs == [run] + rest;
        forall p | i <= p < |list| && TryExpressions(st, list, p, 0, 0).Some?
          ensures InSomeRun(runs, p)
        {
          InSomeRunCons(run, rest, p);
        }
      } else {
        ScanFromMissesNothing(st, list, i + 1);
        assert runs == ScanFrom(st, list, i + 1);
      }
    }
  }

  /** Every member of a run has a match; any two members have the same stem
      (title, Ignore group and extension, ignoring case); and every member
      after the first has a volume other than the first member's. Volumes are
      compared with the first member's only. */
  lemma RunMembersAgree(st: Stacking, list: seq<PortableFileInfo>, run: Run)
    requires IsRun(st, list, run)
    ensures forall t :: run.start <= t < run.end ==>
      FindMatch(st, list[t], run.expression, run.offset).Some?
    ensures forall t, u :: run.start <= t < run.end && run.start <= u < run.end ==>
      SameStem(FindMatch(st, list[t], run.expression, run.offset).value,
               FindMatch(st, list[u], run.expression, run.offset).value)
    ensures forall t :: run.start < t < run.end ==>
      !EqualsIgnoreCase(FindMatch(st, list[t], run.expression, run.offset).value.volume, run.first.volume)
  {
    var m1 := run.first;
    forall t, u | run.start <= t < run.end && run.start <= u < run.end
      ensures SameStem(FindMatch(st, list[t], run.expression, run.offset).value,
                       FindMatch(st, list[u], run.expression, run.offset).value)
    {
      var mt := FindMatch(st, list[t], run.expression, run.offset).value;
      var mu := FindMatch(st, list[u], run.expression, run.offset).value;
      EqualsIgnoreCaseIsEquivalence(m1.title, mt.title, mu.title);
      EqualsIgnoreCaseIsEquivalence(mt.title, m1.title, mu.title);
      EqualsIgnoreCaseIsEquivalence(m1.ignore, mt.ignore, mu.ignore);
      EqualsIgnoreCaseIsEquivalence(mt.ignore, m1.ignore, mu.ignore);
      EqualsIgnoreCaseIsEquivalence(m1.extension, mt.extension, mu.extension);
      EqualsIgnoreCaseIsEquivalence(mt.extension, m1.extension, mu.extension);
    }
    forall t | run.start < t < run.end
      ensures !EqualsIgnoreCase(FindMatch(st, list[t], run.expression, run.offset).value.volume, run.first.volume)
    {
      var mt := FindMatch(st, list[t], run.expression, run.offset).value;
      EqualsIgnoreCaseIsEquivalence(mt.volume, m1.volume, m1.volume);
    }
  }

  /** Stack `k` of `stacks` is named after the title and Ignore group of
      the first member of run `k` and holds the paths of the entries
      `start..end` of that run. */
  ghost predicate StacksOfRuns(list: seq<PortableFileInfo>, runs: seq<Run>, stacks: seq<FileStack>) {
    |stacks| == |runs| &&
    forall k :: 0 <= k < |runs| ==>
      runs[k].start <= runs[k].end <= |list| &&
      stacks[k].name == runs[k].first.title + runs[k].first.ignore &&
      stacks[k].expression == runs[k].expression &&
      stacks[k].files == Paths(list[runs[k].start..runs[k].end])
  }

  /** The resolution is one stack per run found in the sorted candidates,
      in order. */
  lemma ResolutionIsRuns(r: Resolver, files: seq<PortableFileInfo>)
    requires Advancing(r.stacking)
    ensures OrderedRuns(r.stacking, Candidates(r, files), ScanFrom(r.stacking, Candidates(r, files), 0))
    ensures StacksOfRuns(Candidates(r, files), ScanFrom(r.stacking, Candidates(r, files), 0), Resolution(r, files))
  {
    ScanFromFindsOrderedRuns(r.stacking, Candidates(r, files), 0);
  }

  /** Every stack has at least two files. */
  lemma EveryStackHasTwoFiles(r: Resolver, files: seq<PortableFileInfo>)
    requires Advancing(r.stacking)
    ensures forall s :: s in Resolution(r, files) ==> |s.files| >= 2
  {
    ResolutionIsRuns(r, files);
    var stacks := Resolution(r, files);
    forall s | s in stacks
      ensures |s.files| >= 2
    {
      var k :| 0 <= k < |stacks| && stacks[k] == s;
    }
  }

  /** The paths in stacks built from runs are paths of entries of the list. */
  lemma StackedPathsAreEntries(list: seq<PortableFileInfo>, runs: seq<Run>, stacks: seq<FileStack>)
    requires StacksOfRuns(list, runs, stacks)
    ensures forall s, p :: s in stacks && p in s.files ==> exists k :: 0 <= k < |list| && list[k].fullName == p
  {
    forall s, p | s in stacks && p in s.files
      ensures exists k :: 0 <= k < |list| && list[k].fullName == p
    {
      var n :| 0 <= n < |stacks| && stacks[n] == s;
      var a :| 0 <= a < |s.files| && s.files[a] == p;
      assert list[runs[n].start + a].fullName == p;
    }
  }

  /** Every stacked path is the path of an input entry that is a directory
      or a video or stub file. */
  lemma StackedPathsAreCandidates(r: Resolver, files: seq<PortableFileInfo>)
    requires Advancing(r.stacking)
    ensures forall s, p :: s in Resolution(r, files) && p in s.files ==>
      exists f :: f in files && IsCandidate(r.classifier, f) && f.fullName == p
  {
    ResolutionIsRuns(r, files);
    var list := Candidates(r, files);
    StackedPathsAreEntries(list, ScanFrom(r.stacking, list, 0), Resolution(r, files));
    forall s, p | s in Resolution(r, files) && p in s.files
      ensures exists f :: f in files && IsCandidate(r.classifier, f) && f.fullName == p
    {
      var k :| 0 <= k < |list| && list[k].fullName == p;
      assert list[k] in files;
    }
  }

  /** When the input paths are distinct, so are the candidates' paths. */
  lemma CandidatePathsDistinct(r: Resolver, files: seq<PortableFileInfo>)
    requires DistinctKeys(files, FullName)
    ensures DistinctKeys(Candidates(r, files), FullName)
  {
    var kept := Where(files, KeepCandidate(r.classifier));
    WhereIsPart(files, KeepCandidate(r.classifier));
    OrderByPermutes(kept, FullName, r.precedes);
    DistinctKeysOfPart(files, Candidates(r, files), FullName);
  }

  /** No path is in two stacks or twice in one stack. */
  ghost predicate DisjointStacks(stacks: seq<FileStack>) {
    forall k, l, a, b ::
      0 <= k < |stacks| && 0 <= l < |stacks| && 0 <= a < |stacks[k].files| && 0 <= b < |stacks[l].files| &&
      (k != l || a != b) ==>
      stacks[k].files[a] != stacks[l].files[b]
  }

  /** Stacks built from runs in order over entries with distinct paths
      share no path. */
  lemma DisjointRuns(list: seq<PortableFileInfo>, runs: seq<Run>, stacks: seq<FileStack>)
    requires DistinctKeys(list, FullName) && RunsInOrder(runs) && StacksOfRuns(list, runs, stacks)
    ensures DisjointStacks(stacks)
  {
    forall k, l, a, b |
      0 <= k < |stacks| && 0 <= l < |stacks| && 0 <= a < |stacks[k].files| && 0 <= b < |stacks[l].files| &&
      (k != l || a != b)
      ensures stacks[k].files[a] != stacks[l].files[b]
    {
      var p, q := runs[k].start + a, runs[l].start + b;
      assert stacks[k].files[a] == list[p].fullName;
      assert stacks[l].files[b] == list[q].fullName;
      assert p != q by {
        if k < l {
          assert runs[k].end <= runs[l].start;
        } else if l < k {
          assert runs[l].end <= runs[k].start;
        }
      }
      if p < q {
        assert FullName(list[p]) != FullName(list[q]);
      } else {
        assert FullName(list[q]) != FullName(list[p]);
      }
    }
  }

  /** When the input paths are distinct, no path is in two stacks or twice
      in one stack. */
  lemma StacksAreDisjoint(r: Resolver, files: seq<PortableFileInfo>)
    requires Advancing(r.stacking) && DistinctKeys(files, FullName)
    ensures DisjointStacks(Resolution(r, files))
  {
    ResolutionIsRuns(r, files);
    CandidatePathsDistinct(r, files);
    var list := Candidates(r, files);
    DisjointRuns(list, ScanFrom(r.stacking, list, 0), Resolution(r, files));
  }

  /** Under an antisymmetric total order, and when the input paths are
      distinct, rearranging the input entries does not change the result. */
  lemma ResolutionIgnoresInputOrder(r: Resolver, files: seq<PortableFileInfo>, files': seq<PortableFileInfo>)
    requires Advancing(r.stacking) && TotalPreorder(r.precedes) && Antisymmetric(r.precedes)
    requires DistinctKeys(files, FullName) && multiset(files) == multiset(files')
    ensures Resolution(r, files) == Resolution(r, files')
  {
    var keep := KeepCandidate(r.classifier);
    var list, list' := Candidates(r, files), Candidates(r, files');
    WherePreservesPermutation(files, files', keep);
    OrderByPermutes(Where(files, keep), FullName, r.precedes);
    OrderByPermutes(Where(files', keep), FullName, r.precedes);
    OrderBySorted(Where(files, keep), FullName, r.precedes);
    OrderBySorted(Where(files', keep), FullName, r.precedes);
    CandidatePathsDistinct(r, files);
    SortedIsUnique(list, list', FullName, r.precedes);
  }

  /** Directories are always candidates, so resolving directories does not
      depend on the video and stub classifiers. */
  lemma DirectoriesIgnoreClassifier(r: Resolver, paths: seq<string>, c: Classifier)
    requires Advancing(r.stacking)
    ensures Resolution(r, AsDirectories(paths)) == Resolution(r.(classifier := c), AsDirectories(paths))
  {
    var dirs := AsDirectories(paths);
    assert forall x :: x in dirs ==> x.fileType == Directory;
    WhereAll(dirs, KeepCandidate(r.classifier));
    WhereAll(dirs, KeepCandidate(c));
  }
}
