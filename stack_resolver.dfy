/** The video stack resolver as the program runs it: three nested loops
    over the sorted candidates, the stacking expressions and the later
    entries, each proved to compute the resolution `StackModel` defines. */
module StackResolver {
  import opened Strings
  import opened Linq
  import opened StackModel
  import opened StackProperties

  /** Resolves paths that all name files. Every stack has at least two
      members, each one of the given paths naming a video or stub file. */
  method ResolveFiles(r: Resolver, paths: seq<string>) returns (stacks: seq<FileStack>)
    requires Advancing(r.stacking)
    ensures stacks == Resolution(r, AsFiles(paths))
    ensures forall s :: s in stacks ==> |s.files| >= 2
    ensures forall s, p :: s in stacks && p in s.files ==>
      p in paths && (r.classifier.isVideoFile(p) || r.classifier.isStubFile(p))
  {
    stacks := Resolve(r, AsFiles(paths));
    forall s, p | s in stacks && p in s.files
      ensures p in paths && (r.classifier.isVideoFile(p) || r.classifier.isStubFile(p))
    {
      var f :| f in AsFiles(paths) && IsCandidate(r.classifier, f) && f.fullName == p;
      var k :| 0 <= k < |paths| && AsFiles(paths)[k] == f;
    }
  }

  /** Resolves paths that all name directories. Every stack has at least
      two members, each one of the given paths; the classifiers play no
      part. */
  method ResolveDirectories(r: Resolver, paths: seq<string>) returns (stacks: seq<FileStack>)
    requires Advancing(r.stacking)
    ensures stacks == Resolution(r, AsDirectories(paths))
    ensures forall c :: stacks == Resolution(r.(classifier := c), AsDirectories(paths))
    ensures forall s :: s in stacks ==> |s.files| >= 2
    ensures forall s, p :: s in stacks && p in s.files ==> p in paths
  {
    stacks := Resolve(r, AsDirectories(paths));
    forall c {
      DirectoriesIgnoreClassifier(r, paths, c);
    }
    forall s, p | s in stacks && p in s.files
      ensures p in paths
    {
      var f :| f in AsDirectories(paths) && IsCandidate(r.classifier, f) && f.fullName == p;
      var k :| 0 <= k < |paths| && AsDirectories(paths)[k] == f;
    }
  }


  /** Filters and sorts the entries, then scans them with an outer index and,
      for each index, the expression loop of `FindStack`. */
  method Resolve(r: Resolver, files: seq<PortableFileInfo>) returns (stacks: seq<FileStack>)
    requires Advancing(r.stacking)
    ensures stacks == Resolution(r, files)
    ensures forall s :: s in stacks ==> |s.files| >= 2
    ensures forall s, p :: s in stacks && p in s.files ==>
      exists f :: f in files && IsCandidate(r.classifier, f) && f.fullName == p
    ensures DistinctKeys(files, FullName) ==> DisjointStacks(stacks)
  {
    var st := r.stacking;
    var list := Candidates(r, files);
    ghost var all := ScanFrom(st, list, 0);
    stacks := [];
    var i := 0;
    while i < |list|
      invariant i <= |list|
      invariant stacks + StacksOf(list, ScanFrom(st, list, i)) == StacksOf(list, all)
      decreases |list| - i
    {
      var stack := FindStack(st, list, i);
      ghost var i0, stacks0 := i, stacks;
      if |stack.files| > 1 {
        stacks := stacks + [stack];
        i := i + |stack.files| - 1;
      }
      i := i + 1;
      ScanStep(st, list, i0, stack, stacks0, stacks, i, StacksOf(list, all));
    }
    EveryStackHasTwoFiles(r, files);
    StackedPathsAreCandidates(r, files);
    if DistinctKeys(files, FullName) {
      StacksAreDisjoint(r, files);
    }
  }

  /** The expression loop for the entry at `i`: tries the expressions in
      order (see `AttemptExpression`) and returns the stack it builds; a stack
      with fewer than two files is none. */
  method FindStack(st: Stacking, list: seq<PortableFileInfo>, i: nat) returns (stack: FileStack)
    requires Advancing(st) && i < |list|
    ensures |stack.files| != 1
    ensures |stack.files| > 1 <==> TryExpressions(st, list, i, 0, 0).Some?
    ensures |stack.files| > 1 ==> stack == StackOf(list, TryExpressions(st, list, i, 0, 0).value)
  {
    var offset: nat := 0;
    var expressionIndex: nat := 0;
    stack := FileStack("", "", []);
    while expressionIndex < |st.expressions|
      invariant expressionIndex <= |st.expressions| && offset <= |GetRegexInput(list[i])|
      invariant TryExpressions(st, list, i, expressionIndex, offset) == TryExpressions(st, list, i, 0, 0)
      invariant stack.files == []
      decreases |st.expressions| - expressionIndex, |GetRegexInput(list[i])| - offset
    {
      stack, expressionIndex, offset := AttemptExpression(st, list, i, expressionIndex, offset);
      if |stack.files| > 1 {
        return;
      }
    }
  }

  /** One pass of the expression loop: matches the entry at `i` with the
      current expression and, on a match, scans forward; returns the stack
      built, or says which expression and offset to try next. Without a match
      the next expression is tried from offset 0; once the forward scan has
      reached the end of the list no expression is tried any more. */
  method AttemptExpression(st: Stacking, list: seq<PortableFileInfo>, i: nat, expressionIndex0: nat, offset0: nat)
    returns (stack: FileStack, expressionIndex: nat, offset: nat)
    requires Advancing(st) && i < |list|
    requires expressionIndex0 < |st.expressions| && offset0 <= |GetRegexInput(list[i])|
    ensures |stack.files| > 1 ==>
      TryExpressions(st, list, i, expressionIndex0, offset0).Some? &&
      stack == StackOf(list, TryExpressions(st, list, i, expressionIndex0, offset0).value)
    ensures |stack.files| <= 1 ==>
      stack.files == [] &&
      expressionIndex <= |st.expressions| && offset <= |GetRegexInput(list[i])| &&
      (expressionIndex0 < expressionIndex || (expressionIndex0 == expressionIndex && offset0 < offset)) &&
      TryExpressions(st, list, i, expressionIndex, offset) == TryExpressions(st, list, i, expressionIndex0, offset0)
    ensures FindMatch(st, list[i], st.expressions[expressionIndex0], offset0).None? ==>
      stack.files == [] && expressionIndex == expressionIndex0 + 1 && offset == 0
    ensures (FindMatch(st, list[i], st.expressions[expressionIndex0], offset0).Some? &&
             ScanEnd(st, list, st.expressions[expressionIndex0], offset0,
                     FindMatch(st, list[i], st.expressions[expressionIndex0], offset0).value, i + 1) == |list|) ==>
      expressionIndex == |st.expressions|
  {
    var exp := st.expressions[expressionIndex0];
    var match1 := FindMatch(st, list[i], exp, offset0);
    if match1.Some? {
      var j;
      stack, j, expressionIndex, offset := ScanForward(st, list, i, exp, match1.value, expressionIndex0, offset0);
      if j == |list| {
        expressionIndex := |st.expressions|;
      }
    } else {
      // No match for the first entry
      stack := FileStack("", exp, []);
      offset := 0;
      expressionIndex := expressionIndex0 + 1;
    }
  }

  /** The forward scan of one expression: entries after `i` are matched with
      the same expression and offset as the entry at `i` (whose match is `m1`)
      and join the stack while they agree with it. The scan stops at the first
      entry that does not join, or at the end of the list; after a false
      positive the same expression is retried from the start of the first
      match's Ignore group, after any other disagreement the next expression
      is tried from offset 0. */
  method ScanForward(st: Stacking, list: seq<PortableFileInfo>, i: nat, exp: string, m1: Match,
                     expressionIndex0: nat, offset0: nat)
    returns (stack: FileStack, j: nat, expressionIndex: nat, offset: nat)
    requires i < |list|
    ensures j == ScanEnd(st, list, exp, offset0, m1, i + 1)
    ensures j == i + 1 ==> stack == FileStack("", exp, [])
    ensures j > i + 1 ==> stack == FileStack(m1.title + m1.ignore, exp, Paths(list[i..j]))
    ensures j == |list| ==> expressionIndex == expressionIndex0 && offset == offset0
    ensures j < |list| ==>
      if Compare(m1, FindMatch(st, list[j], exp, offset0)) == FalsePositive
      then expressionIndex == expressionIndex0 && offset == m1.ignoreIndex
      else expressionIndex == expressionIndex0 + 1 && offset == 0
  {
    expressionIndex, offset := expressionIndex0, offset0;
    stack := FileStack("", exp, []);
    var file1 := list[i];
    var title1, volume1, ignore1, extension1 := m1.title, m1.volume, m1.ignore, m1.extension;
    j := i + 1;
    while j < |list|
      invariant i + 1 <= j <= |list|
      invariant expressionIndex == expressionIndex0 && offset == offset0
      invariant ScanEnd(st, list, exp, offset, m1, j) == ScanEnd(st, list, exp, offset, m1, i + 1)
      invariant j == i + 1 ==> stack == FileStack("", exp, [])
      invariant j > i + 1 ==> stack == FileStack(title1 + ignore1, exp, Paths(list[i..j]))
      decreases |list| - j
    {
      var file2 := list[j];
      var match2 := FindMatch(st, file2, exp, offset);
      if match2.Some? {
        var m2 := match2.value;
        var title2, volume2, ignore2, extension2 := m2.title, m2.volume, m2.ignore, m2.extension;
        if EqualsIgnoreCase(title1, title2) {
          if !EqualsIgnoreCase(volume1, volume2) {
            if EqualsIgnoreCase(ignore1, ignore2) && EqualsIgnoreCase(extension1, extension2) {
              if |stack.files| == 0 {
                stack := stack.(name := title1 + ignore1, files := [file1.fullName]);
              }
              PathsExtend(list, i, j);
              stack := stack.(files := stack.files + [file2.fullName]);
            } else {
              // Sequel
              offset := 0;
              expressionIndex := expressionIndex + 1;
              break;
            }
          } else if !EqualsIgnoreCase(ignore1, ignore2) {
            // False positive: retry the same expression from the start of the first match's Ignore group
            offset := m1.ignoreIndex;
            break;
          } else {
            // Extension mismatch
            offset := 0;
            expressionIndex := expressionIndex + 1;
            break;
          }
        } else {
          // Title mismatch
          offset := 0;
          expressionIndex := expressionIndex + 1;
          break;
        }
      } else {
        // No match for the later entry: next expression
        offset := 0;
        expressionIndex := expressionIndex + 1;
        break;
      }
      j := j + 1;
    }
  }
}
