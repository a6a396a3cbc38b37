# Video stack resolver

A Dafny model of the stack resolver of MediaBrowser.Naming. The resolver finds
the parts of one title among file and directory entries and groups them into
stacks. Parts look like "Bad Boys (2006) part1.mkv" and "... part2.mkv", or a
"cd 1" and a "cd 2" directory.

`StackResolver.Resolve` takes the entries and works in three steps:

1. It keeps the directories and the files the video or stub classifier accepts.
2. It sorts the kept entries by full path.
3. It scans the sorted list. For each index it tries the stacking expressions
   in order. The first entry's match gives four groups: Title, Volume, Ignore
   and Extension. The following entries are matched with the same expression
   and offset and compared with the first entry's groups.

Depending on the comparison, a later entry joins the stack, or the attempt
moves on to the next expression, or it retries the same expression from the
start of the first match's Ignore group. A stack with more than one file is committed, and
the scan resumes after its last member.

The project has five modules:

- `Strings`: `Path.GetFileName` and ordinal ignore-case equality.
- `Linq`: `Where`, and `OrderBy` as a stable insertion sort under a string
  order passed as a parameter.
- `StackModel`: the entities and the input shaping (`GetRegexInput`,
  `FindMatch`, filtering and sorting). It also defines the scan as ghost
  functions:
  - `ScanEnd`: the forward scan over later entries;
  - `TryExpressions`: the expression loop, a state machine over (expression
    index, offset);
  - `ScanFrom`: the outer scan;
  - `Resolution`: the whole result.
- `StackProperties`: lemmas about `Resolution`.
- `StackResolver`: the resolver as the program runs it. Three nested loops
  (`Resolve`, `FindStack`, `AttemptExpression` with `ScanForward`) are each
  proved to compute `Resolution`, or the part of it their loop is responsible
  for.

The regular expression engine is an abstract matcher. `regexMatch(input,
expression, offset)` returns the four groups and the index of the Ignore group,
or `None`. The video and stub classifiers and the sort order are parameters as
well.

Two details of the code the model follows:

- `OrderBy` (`StackResolver.cs:56`) uses the default comparer, which is
  culture-sensitive, so the order is the `precedes` parameter.
- The last branch of the comparison (`StackResolver.cs:131-137`) does not
  compare extensions: when title, volume and Ignore agree, the next expression
  is tried whatever the extensions. The verdict keeps the code's name,
  `ExtensionMismatch`.

## Model

| member | source | states |
|---|---|---|
| StackResolver.Resolve | MediaBrowser.Naming/Video/StackResolver.cs:48-180 | The loop computes `Resolution(r, files)`. Every stack has at least two files. Every stacked path is the path of an input entry that is a directory or a video or stub file. When the input paths are distinct, no path is in two stacks or twice in one. |
| StackResolver.FindStack | MediaBrowser.Naming/Video/StackResolver.cs:64-176 | The expression loop never yields a one-file stack. It yields a stack exactly when `TryExpressions` commits a run, and that stack is the run's stack. |
| StackResolver.AttemptExpression | MediaBrowser.Naming/Video/StackResolver.cs:71-168 | One pass either commits the stack of the run `TryExpressions` finds, or returns an empty stack and a strictly later (expression, offset) pair with the same outcome. Without a first match it moves to the next expression at offset 0. Once the forward scan has reached the end of the list, no expression is tried any more. |
| StackResolver.ScanForward | MediaBrowser.Naming/Video/StackResolver.cs:82-161 | The forward scan stops at `ScanEnd`, the first later entry that does not join. The stack is empty when no entry joined; otherwise it holds the paths of `list[i..j]` and is named title + Ignore of the first match. At the end of the list the state is unchanged. After a false positive the same expression is retried from the first match's Ignore index. After any other verdict the next expression is tried from offset 0. |
| StackResolver.ResolveFiles | MediaBrowser.Naming/Video/StackResolver.cs:39-46 | Resolves the paths as files. Every stack has at least two files, and every stacked path is one of the given paths and is accepted by the video or the stub classifier. |
| StackResolver.ResolveDirectories | MediaBrowser.Naming/Video/StackResolver.cs:30-37 | Resolves the paths as directories. Every stack has at least two files, and every stacked path is one of the given paths. The result is the same under any classifier. |
| StackModel.GetRegexInput | MediaBrowser.Naming/Video/StackResolver.cs:182-190 | The matched input is the file name of a file's path, or the file name of a directory's path followed by ".mkv". It never holds a directory separator. |
| StackModel.FindMatch | MediaBrowser.Naming/Video/StackResolver.cs:192-198 | With an advancing matcher, a match of a stacking expression places its Ignore group after the search offset and inside the input, so an offset at or past the end of the input finds no match. |
| StackModel.Candidates | MediaBrowser.Naming/Video/StackResolver.cs:54-57 | An entry is a candidate exactly when it is an input entry that is a directory or a video or stub file. No entry occurs more often than in the input, and there are no more candidates than input entries. |
| StackModel.CandidatesSorted | MediaBrowser.Naming/Video/StackResolver.cs:54-57 | The candidates are the filtered entries rearranged, each kept as often as the filter keeps it, and under a total preorder they are sorted by full path. |
| StackModel.Compare | MediaBrowser.Naming/Video/StackResolver.cs:95-153 | A later entry gets `NoMatch` exactly when the expression does not match it. It joins exactly when it has a match with the first entry's title, Ignore group and extension and another volume, all ignoring case. It is a false positive exactly when title and volume agree and the Ignore group differs. |
| StackModel.ScanEnd | MediaBrowser.Naming/Video/StackResolver.cs:87-156 | The forward scan ends within the list. Every entry it passes joins, and the entry it stops at, if any, does not. |
| StackModel.TryExpressions | MediaBrowser.Naming/Video/StackResolver.cs:69-176 | A committed run starts at `i` and has at least two entries, all within the list. |
| StackModel.ScanFrom | MediaBrowser.Naming/Video/StackResolver.cs:61-177 | Every run found from `i` on lies within `list[i..]`. |
| StackModel.ScanStep | MediaBrowser.Naming/Video/StackResolver.cs:170-174 | Committing a stack of more than one file and resuming after its last member, or moving to the next index otherwise, keeps the stacks found so far followed by those still to be found equal to the whole result. |
| StackModel.ScanFromIsShort | MediaBrowser.Naming/Video/StackResolver.cs:61-177 | Each stack found from `i` on takes at least two entries of the rest of the list, so there are at most half as many stacks as remaining entries. |
| StackModel.Resolution | MediaBrowser.Naming/Video/StackResolver.cs:48-180 | The result has at most half as many stacks as there are input entries. |
| StackModel.PathsExtend | MediaBrowser.Naming/Video/StackResolver.cs:115 | Appending the next entry's path to a stack's files gives the paths of the run extended by that entry. |
| StackProperties.TryExpressionsFindsRun | MediaBrowser.Naming/Video/StackResolver.cs:69-176 | A run the expression loop commits at `i` starts at `i` and is a run: two or more entries, matched by a stacking expression, every later member joining the first, and the entry after the last member not joining. |
| StackProperties.ScanFromFindsOrderedRuns | MediaBrowser.Naming/Video/StackResolver.cs:61-177 | Every run found is a run, and is the one the expression loop commits at its first entry. Each run ends no later than the next one starts. |
| StackProperties.ScanFromMissesNothing | MediaBrowser.Naming/Video/StackResolver.cs:61-177 | No stack is missed: every entry at which the expression loop would commit a stack lies inside one of the runs found. |
| StackProperties.RunMembersAgree | MediaBrowser.Naming/Video/StackResolver.cs:93-116 | Every member of a stack matches the stack's expression at the same offset. Any two members have the same title, Ignore group and extension, ignoring case. Every member after the first has a volume other than the first member's; volumes are compared with the first member's only. |
| StackProperties.ResolutionIsRuns | MediaBrowser.Naming/Video/StackResolver.cs:87-174 | The result holds one stack per run of the sorted candidates, in order. A stack's files are the paths of the contiguous entries `start..end` of its run, and its name is title + Ignore of the first member's match. Runs do not overlap. |
| StackProperties.EveryStackHasTwoFiles | MediaBrowser.Naming/Video/StackResolver.cs:109-172 | Every stack has at least two files: the first join adds both the first and the joining entry. |
| StackProperties.StackedPathsAreCandidates | MediaBrowser.Naming/Video/StackResolver.cs:54-57 | Every stacked path is the path of an input entry that is a directory or a video or stub file. |
| StackProperties.CandidatePathsDistinct | MediaBrowser.Naming/Video/StackResolver.cs:54-57 | Filtering and sorting keep input paths distinct. |
| StackProperties.DisjointRuns | MediaBrowser.Naming/Video/StackResolver.cs:170-174 | Stacks built from non-overlapping runs over entries with distinct paths share no path. |
| StackProperties.StacksAreDisjoint | MediaBrowser.Naming/Video/StackResolver.cs:170-174 | When the input paths are distinct, no path is in two stacks or twice in one stack. |
| StackProperties.ResolutionIgnoresInputOrder | MediaBrowser.Naming/Video/StackResolver.cs:54-57 | Under an antisymmetric total order, and with distinct input paths, any rearrangement of the input gives the same result. |
| StackProperties.DirectoriesIgnoreClassifier | MediaBrowser.Naming/Video/StackResolver.cs:55 | Directories are always kept, so resolving directories gives the same result under any classifier. |
| Strings.GetFileNameIsLastComponent | MediaBrowser.Naming/Video/StackResolver.cs:189 | The file name is the longest separator-free suffix of the path. |
| Strings.GetFileNameAppend | MediaBrowser.Naming/Video/StackResolver.cs:185-189 | Appending a separator-free tail such as ".mkv" to a path appends it to the file name. |
| Strings.EqualsIgnoreCaseAt | MediaBrowser.Naming/Video/StackResolver.cs:102-107 | Ignore-case equality holds exactly when the lengths agree and the upper-cased characters agree at every position. |
| Strings.EqualsIgnoreCaseIsEquivalence | MediaBrowser.Naming/Video/StackResolver.cs:102-107 | Ignore-case equality is reflexive, symmetric and transitive. |
| Linq.WhereKeeps | MediaBrowser.Naming/Video/StackResolver.cs:55 | An element is in the filtered sequence exactly when the input holds it and it is accepted; filtering never lengthens the sequence. |
| Linq.WherePreservesPermutation | MediaBrowser.Naming/Video/StackResolver.cs:55 | Filtering two arrangements of the same entries gives two arrangements of the same entries. |
| Linq.WhereIsPart | MediaBrowser.Naming/Video/StackResolver.cs:55 | Filtering keeps no element more often than the input holds it. |
| Linq.WhereAll | MediaBrowser.Naming/Video/StackResolver.cs:55 | When every element is accepted, filtering changes nothing. |
| Linq.OrderByPermutes | MediaBrowser.Naming/Video/StackResolver.cs:56 | Sorting neither adds nor drops entries. |
| Linq.OrderBySorted | MediaBrowser.Naming/Video/StackResolver.cs:56 | Under a total preorder the output is sorted by full path. |
| Linq.DistinctKeysOfPart | MediaBrowser.Naming/Video/StackResolver.cs:54-57 | Keys stay distinct in any part of a sequence with distinct keys. |
| Linq.SortedIsUnique | MediaBrowser.Naming/Video/StackResolver.cs:56 | Under an antisymmetric total order, and with distinct keys, a collection has one sorted arrangement. |

## Left out

- StackResolver.Resolve: requires `Advancing`. Every match must place its Ignore group strictly after the search offset and inside the input. The retry after a false positive (`StackResolver.cs:128`) restarts at that index, and the code itself does not ensure it advances. With a matcher that breaks this, the resolver can loop forever; the model covers only matchers that keep it.
- StackResolver.Resolve: the out-of-range exception is not modelled. After a false positive the offset becomes the start of the first entry's Ignore group (`StackResolver.cs:128`), and the later entries are matched at that same offset (`StackResolver.cs:93`). When the offset is past the end of a later entry's name, `Regex.Match(input, startat)` (`StackResolver.cs:197`) throws `ArgumentOutOfRangeException`, and the whole resolution fails. In the model, `Advancing` makes the matcher return no match at an offset at or past the end of the input (`FindMatch` states this); at the end itself the source does not throw, and no match is found there either, since the Ignore group would have to start after the offset. The entry then gets the `NoMatch` verdict, and a stack of two or more entries found before it is still committed.
- The .NET regular expression engine, the `IRegexProvider` cache and the concrete stacking expressions of `NamingOptions` are not part of this model. `FindMatch` applies an abstract matcher, so the test outcomes, which depend on those expressions, are not restated.
- `VideoResolver.IsVideoFile` and `IsStubFile` are not part of this model; they are the `isVideoFile` and `isStubFile` parameters.
- The culture-sensitive string comparison `OrderBy` uses is the `precedes` parameter. The stability of the insertion sort is not proved.
- StackProperties.ResolutionIgnoresInputOrder: stated only for an antisymmetric total order and distinct input paths. A culture comparer that ranks two different paths as equal leaves their relative order to the input.
- The model's `GetFileName` recognises only '/' and '\\' as separators. Drive prefixes and platform-specific rules are not modelled.
- `StringComparison.OrdinalIgnoreCase` is modelled as ASCII upper-casing; the case mapping of other characters is not.
- The logger, the constructors and the unused `extraFiles` list (`StackResolver.cs:14-28, 63`) have no behaviour to model.
- `StackResult` and `FileStack` are values here: `Resolve` returns the sequence of stacks it builds, and a stack's file list is rebuilt on each append rather than updated in place.
