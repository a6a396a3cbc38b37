/** The video stack resolver stated as functions: it groups the parts of one
    title ("part1", "part2", "cd 1", "cd 2", ...) found among file and
    directory entries into stacks. The stacking expressions are applied through an abstract regular
    expression matcher; the video/stub classifiers and the string order used
    for sorting are parameters as well. */
module StackModel {
  import opened Strings
  import opened Linq

  datatype Option<T> = None | Some(value: T)

  datatype FileInfoType = File | Directory

  /** One input entry: a full path and whether it names a file or a directory. */
  datatype PortableFileInfo = PortableFileInfo(fullName: string, fileType: FileInfoType)

  /** A successful match of a stacking expression: its four groups
      (Title)(Volume)(Ignore)(Extension), and the index in the matched input at
      which the Ignore group starts. */
  datatype Match = Match(title: string, volume: string, ignore: string, extension: string, ignoreIndex: nat)

  /** A stack of parts: its display name, the expression that found it and the
      full paths of its members, in discovery order. */
  datatype FileStack = FileStack(name: string, expression: string, files: seq<string>)

  /** The stacking expressions, in the order they are tried, and the regular
      expression engine: `regexMatch(input, expression, offset)` is the first
      case-insensitive match of `expression` in `input` starting no earlier
      than `offset`. */
  datatype Stacking = Stacking(expressions: seq<string>, regexMatch: (string, string, nat) -> Option<Match>)

  /** The video resolver's two classifiers. */
  datatype Classifier = Classifier(isVideoFile: string -> bool, isStubFile: string -> bool)

  /** Everything a resolution depends on; `precedes` is the string order the
      entries are sorted by. */
  datatype Resolver = Resolver(stacking: Stacking, classifier: Classifier, precedes: (string, string) -> bool)

  /** Every match of a stacking expression places its Ignore group strictly
      after the search offset and inside the input. The retry after a false
      positive restarts the search at that index, so this is what makes the
      scan terminate. */
  ghost predicate Advancing(st: Stacking) {
    forall input, exp, offset: nat :: exp in st.expressions && st.regexMatch(input, exp, offset).Some? ==>
      offset < st.regexMatch(input, exp, offset).value.ignoreIndex <= |input|
  }

  /** The string the expressions are matched against: the file name of the
      entry, with a dummy ".mkv" extension appended for directories. The
      ".mkv" lands after the directory's own name, and the result never holds
      a directory separator. */
  function GetRegexInput(file: PortableFileInfo): (input: string)
    ensures NoSeparator(input)
    ensures file.fileType == File ==> input == GetFileName(file.fullName)
    ensures file.fileType == Directory ==> input == GetFileName(file.fullName) + ".mkv"
  {
    var path := if file.fileType == File then file.fullName else file.fullName + ".mkv";
    GetFileNameHasNoSeparator(path);
    assert NoSeparator(".mkv");
    GetFileNameAppend(file.fullName, ".mkv");
    GetFileName(path)
  }

  /** The match of a stacking expression in the entry's regex input,
      searched from `offset`. With an advancing matcher a match places its
      Ignore group after the offset and inside the input, so an offset at or
      past the end of the input finds no match. */
  function FindMatch(st: Stacking, file: PortableFileInfo, exp: string, offset: nat): (m: Option<Match>)
    ensures Advancing(st) && exp in st.expressions && m.Some? ==>
      offset < m.value.ignoreIndex <= |GetRegexInput(file)|
    ensures Advancing(st) && exp in st.expressions && |GetRegexInput(file)| <= offset ==> m == None
  {
    st.regexMatch(GetRegexInput(file), exp, offset)
  }

  /** The entries the scan works on: directories and video or stub files. */
  predicate IsCandidate(c: Classifier, file: PortableFileInfo) {
    file.fileType == Directory || c.isVideoFile(file.fullName) || c.isStubFile(file.fullName)
  }

  function KeepCandidate(c: Classifier): PortableFileInfo -> bool {
    file => IsCandidate(c, file)
  }

  function FullName(file: PortableFileInfo): string {
    file.fullName
  }

  /** The candidates, sorted by full path: exactly the input entries that
      are directories or video or stub files, none more often than in the
      input. */
  function Candidates(r: Resolver, files: seq<PortableFileInfo>): (list: seq<PortableFileInfo>)
    ensures forall f :: f in list <==> f in files && IsCandidate(r.classifier, f)
    ensures multiset(list) <= multiset(files) && |list| <= |files|
  {
    var keep := KeepCandidate(r.classifier);
    WhereKeeps(files, keep);
    WhereIsPart(files, keep);
    OrderByPermutes(Where(files, keep), FullName, r.precedes);
    OrderByMembers(Where(files, keep), FullName, r.precedes);
    OrderBy(Where(files, keep), FullName, r.precedes)
  }

  /** The candidates are the filtered entries, each kept as often as the
      filter keeps it, and under a total preorder they are sorted by full
      path. */
  lemma CandidatesSorted(r: Resolver, files: seq<PortableFileInfo>)
    ensures multiset(Candidates(r, files)) == multiset(Where(files, KeepCandidate(r.classifier)))
    ensures TotalPreorder(r.precedes) ==> SortedBy(Candidates(r, files), FullName, r.precedes)
  {
    var kept := Where(files, KeepCandidate(r.classifier));
    OrderByPermutes(kept, FullName, r.precedes);
    if TotalPreorder(r.precedes) {
      OrderBySorted(kept, FullName, r.precedes);
    }
  }

  function Paths(list: seq<PortableFileInfo>): (paths: seq<string>)
    ensures |paths| == |list|
  {
    seq(|list|, k requires 0 <= k < |list| => list[k].fullName)
  }

  /** The entries `ResolveFiles` builds from paths. */
  function AsFiles(paths: seq<string>): (files: seq<PortableFileInfo>)
    ensures |files| == |paths|
  {
    seq(|paths|, k requires 0 <= k < |paths| => PortableFileInfo(paths[k], File))
  }

  /** The entries `ResolveDirectories` builds from paths. */
  function AsDirectories(paths: seq<string>): (files: seq<PortableFileInfo>)
    ensures |files| == |paths|
  {
    seq(|paths|, k requires 0 <= k < |paths| => PortableFileInfo(paths[k], Directory))
  }

  // ---------------------------------------------------------------------
  // The scan, stated as a state machine over (expression index, offset)

  /** How a later entry compares with the first entry of a prospective stack. */
  datatype Verdict =
    | Joins              // same title, other volume, same Ignore and extension
    | NoMatch            // the expression does not match the later entry
    | TitleMismatch
    | Sequel             // same title, other volume, but Ignore or extension differ
    | FalsePositive      // same title and volume, Ignore differs: retry further on
    | ExtensionMismatch  // same title, volume and Ignore (the extension is not compared)

  /** Same title, Ignore group and extension, ignoring case. */
  predicate SameStem(m1: Match, m2: Match) {
    EqualsIgnoreCase(m1.title, m2.title) && EqualsIgnoreCase(m1.ignore, m2.ignore) &&
    EqualsIgnoreCase(m1.extension, m2.extension)
  }

  /** The verdict for a later entry whose match is `m2`, given the first
      entry's match `m1`, testing the groups in the resolver's order. The
      entry joins exactly when it has the first entry's stem and another
      volume; it is a false positive exactly when it has the first entry's
      title and volume and another Ignore group. */
  function Compare(m1: Match, m2: Option<Match>): (v: Verdict)
    ensures v == NoMatch <==> m2.None?
    ensures v == Joins <==>
      m2.Some? && SameStem(m1, m2.value) && !EqualsIgnoreCase(m1.volume, m2.value.volume)
    ensures v == FalsePositive <==>
      m2.Some? && EqualsIgnoreCase(m1.title, m2.value.title) &&
      EqualsIgnoreCase(m1.volume, m2.value.volume) && !EqualsIgnoreCase(m1.ignore, m2.value.ignore)
  {
    if m2.None? then NoMatch
    else if !EqualsIgnoreCase(m1.title, m2.value.title) then TitleMismatch
    else if !EqualsIgnoreCase(m1.volume, m2.value.volume) then
      if EqualsIgnoreCase(m1.ignore, m2.value.ignore) && EqualsIgnoreCase(m1.extension, m2.value.extension)
      then Joins
      else Sequel
    else if !EqualsIgnoreCase(m1.ignore, m2.value.ignore) then FalsePositive
    else ExtensionMismatch
  }

  /** The first index at or after `j` whose entry does not join a stack that
      starts with match `m1` of `exp` at `offset`, or `|list|` if there is none. */
  ghost function ScanEnd(st: Stacking, list: seq<PortableFileInfo>, exp: string, offset: nat, m1: Match, j: nat): (end: nat)
    requires j <= |list|
    ensures j <= end <= |list|
    ensures forall t :: j <= t < end ==> Compare(m1, FindMatch(st, list[t], exp, offset)) == Joins
    ensures end < |list| ==> Compare(m1, FindMatch(st, list[end], exp, offset)) != Joins
    decreases |list| - j
  {
    if j == |list| then j
    else if Compare(m1, FindMatch(st, list[j], exp, offset)) == Joins then ScanEnd(st, list, exp, offset, m1, j + 1)
    else j
  }

  /** A stack found by the scan: the members are `list[start..end]`, all
      matched by `expression` searched from `offset`; `first` is the match of
      the first member. */
  datatype Run = Run(start: nat, end: nat, expression: string, offset: nat, first: Match)

  /** What every stack found in `list` satisfies: at least two members;
      the first member matched; every later member joins the first one; and
      the entry right after the last member, if any, does not. */
  ghost predicate IsRun(st: Stacking, list: seq<PortableFileInfo>, run: Run) {
    run.start + 2 <= run.end <= |list| &&
    run.expression in st.expressions &&
    FindMatch(st, list[run.start], run.expression, run.offset) == Some(run.first) &&
    (forall t :: run.start < t < run.end ==>
       Compare(run.first, FindMatch(st, list[t], run.expression, run.offset)) == Joins) &&
    (run.end < |list| ==> Compare(run.first, FindMatch(st, list[run.end], run.expression, run.offset)) != Joins)
  }

  /** The expression loop for the entry at `i`, from expression
      `expressionIndex` searched from `offset`: the stack it commits, if any. */
  ghost function TryExpressions(st: Stacking, list: seq<PortableFileInfo>, i: nat, expressionIndex: nat, offset: nat): (run: Option<Run>)
    requires Advancing(st)
    requires i < |list| && expressionIndex <= |st.expressions| && offset <= |GetRegexInput(list[i])|
    ensures run.Some? ==> run.value.start == i && i + 2 <= run.value.end <= |list|
    decreases |st.expressions| - expressionIndex, |GetRegexInput(list[i])| - offset
  {
    if expressionIndex == |st.expressions| then None
    else
      var exp := st.expressions[expressionIndex];
      match FindMatch(st, list[i], exp, offset)
      case None =>
        TryExpressions(st, list, i, expressionIndex + 1, 0)
      case Some(m1) =>
        var end := ScanEnd(st, list, exp, offset, m1, i + 1);
        if end >= i + 2 then
          Some(Run(i, end, exp, offset, m1))
        else if end == |list| then
          None
        else if Compare(m1, FindMatch(st, list[end], exp, offset)) == FalsePositive then
          TryExpressions(st, list, i, expressionIndex, m1.ignoreIndex)
        else
          TryExpressions(st, list, i, expressionIndex + 1, 0)
  }

  /** The stacks found from index `i` on, in the order the scan commits them.
      Each takes at least two entries of `list[i..]`, so there are at most
      half as many stacks as entries. */
  ghost function ScanFrom(st: Stacking, list: seq<PortableFileInfo>, i: nat): (runs: seq<Run>)
    requires Advancing(st) && i <= |list|
    ensures forall k :: 0 <= k < |runs| ==> i <= runs[k].start <= runs[k].end <= |list|
    decreases |list| - i
  {
    if i == |list| then []
    else
      match TryExpressions(st, list, i, 0, 0)
      case Some(run) => [run] + ScanFrom(st, list, run.end)
      case None => ScanFrom(st, list, i + 1)
  }

  /** Each stack found from `i` on takes at least two entries of
      `list[i..]`. */
  lemma {:induction false} ScanFromIsShort(st: Stacking, list: seq<PortableFileInfo>, i: nat)
    requires Advancing(st) && i <= |list|
    ensures 2 * |ScanFrom(st, list, i)| <= |list| - i
    decreases |list| - i
  {
    if i < |list| {
      match TryExpressions(st, list, i, 0, 0)
      case Some(run) => ScanFromIsShort(st, list, run.end);
      case None => ScanFromIsShort(st, list, i + 1);
    }
  }

  ghost function StackOf(list: seq<PortableFileInfo>, run: Run): FileStack
    requires run.start <= run.end <= |list|
  {
    FileStack(run.first.title + run.first.ignore, run.expression, Paths(list[run.start..run.end]))
  }

  ghost function StacksOf(list: seq<PortableFileInfo>, runs: seq<Run>): (stacks: seq<FileStack>)
    requires forall k :: 0 <= k < |runs| ==> runs[k].start <= runs[k].end <= |list|
  {
    seq(|runs|, k requires 0 <= k < |runs| => StackOf(list, runs[k]))
  }

  lemma PathsExtend(list: seq<PortableFileInfo>, i: nat, j: nat)
    requires i <= j < |list|
    ensures Paths(list[i..j + 1]) == Paths(list[i..j]) + [list[j].fullName]
  {
  }

  lemma StacksOfCons(list: seq<PortableFileInfo>, run: Run, runs: seq<Run>)
    requires run.start <= run.end <= |list|
    requires forall k :: 0 <= k < |runs| ==> runs[k].start <= runs[k].end <= |list|
    ensures StacksOf(list, [run] + runs) == [StackOf(list, run)] + StacksOf(list, runs)
  {
  }

  /** Committing the stack of the first run moves it from the stacks still
      to be found to the stacks found. */
  lemma CommitStep(list: seq<PortableFileInfo>, run: Run, after: seq<Run>,
                   found: seq<FileStack>, stack: FileStack, all: seq<FileStack>)
    requires run.start <= run.end <= |list|
    requires forall k :: 0 <= k < |after| ==> run.end <= after[k].start <= after[k].end <= |list|
    requires found + StacksOf(list, [run] + after) == all
    requires stack == StackOf(list, run)
    ensures (found + [stack]) + StacksOf(list, after) == all
  {
    StacksOfCons(list, run, after);
    assert found + ([stack] + StacksOf(list, after)) == (found + [stack]) + StacksOf(list, after);
  }

  /** One step of the outer scan, seen on the stacks: with `stack` the
      result of the expression loop at `i`, the stacks found so far followed
      by those found from index `next` on stay the same. */
  lemma ScanStep(st: Stacking, list: seq<PortableFileInfo>, i: nat, stack: FileStack,
                 found: seq<FileStack>, found': seq<FileStack>, next: nat, all: seq<FileStack>)
    requires Advancing(st) && i < |list|
    requires found + StacksOf(list, ScanFrom(st, list, i)) == all
    requires |stack.files| > 1 <==> TryExpressions(st, list, i, 0, 0).Some?
    requires |stack.files| > 1 ==> stack == StackOf(list, TryExpressions(st, list, i, 0, 0).value)
    requires found' == if |stack.files| > 1 then found + [stack] else found
    requires next == if |stack.files| > 1 then i + |stack.files| else i + 1
    ensures next <= |list| && found' + StacksOf(list, ScanFrom(st, list, next)) == all
  {
    var first := TryExpressions(st, list, i, 0, 0);
    if first.Some? {
      var run := first.value;
      var after := ScanFrom(st, list, run.end);
      assert ScanFrom(st, list, i) == [run] + after;
      assert |stack.files| == run.end - i;
      CommitStep(list, run, after, found, stack, all);
    } else {
      assert ScanFrom(st, list, i) == ScanFrom(st, list, i + 1);
    }
  }

  /** The result of resolving `files`: the stacks of the runs the scan
      finds in the sorted candidates. There are at most half as many stacks
      as input entries. */
  ghost function Resolution(r: Resolver, files: seq<PortableFileInfo>): (stacks: seq<FileStack>)
    requires Advancing(r.stacking)
    ensures 2 * |stacks| <= |files|
  {
    var list := Candidates(r, files);
    ScanFromIsShort(r.stacking, list, 0);
    StacksOf(list, ScanFrom(r.stacking, list, 0))
  }
}
