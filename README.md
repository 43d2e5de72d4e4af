# Result organiser: newest-result selection and the task-directory walk

The script `Plotting/run_this_before_plotting_organize_harness.py` gathers
benchmark result files from a loosely nested results tree into a flat
layout `target/<task>/<model>/result.json`. This project models its two
algorithmic parts over an in-memory snapshot of the filesystem, and proves
what they do.

- **Newest-result search** (`find_newest_result_file`). It scans a list of
  directories, each one level deep. It keeps the regular files named
  `results_*.json` whose modification time can be read. A running maximum
  starts at time 0 and is replaced only by a strictly larger time.
- **Walk** (`organize_results`). It is a pre-order walk over the source
  tree. A directory whose name is a configured task is a task directory.
  For a task directory the walk:
  - takes the model name from the path segment before the last occurrence
    of the task name;
  - searches the directory and its immediate sub-directories for the newest
    result;
  - records one copy to `target/task/model/result.json`;
  - keeps a set of processed paths and the counters `copied` and `skipped`;
  - does not descend below the task directory, unless no result was found.

Modules:

- `Wrappers` (`wrappers.dfy`): `Option` and `Result`.
- `Snapshot` (`snapshot.dfy`): the filesystem as a tree of `Entry` values.
  - A file has a name, a regular-file flag, and a modification time that
    may be unreadable.
  - A directory has a name, a listable flag and its entries in listing
    order.
  - A path is a sequence of segments. `Lookup` resolves a path, standing in
    for `os.path.isdir` and `os.listdir`.
- `ResultFinder` (`finder.dfy`): the search.
  - `FindNewestResultFile` is the nested loop of the source.
  - It is proved equal to `NewestResult`: a left fold (`Newest`) over the
    candidates (`Candidates`), in the order the loop meets them.
- `Organizer` (`organizer.dfy`): the walk.
  - `Step` is what the loop body does at one directory.
  - `WalkTree` and `WalkChildren` define the pre-order walk.
  - `OrganizeResults` runs the walk with an explicit stack of pending
    directories. Its loop invariant says that finishing the stack from the
    current state gives `WalkTree` of the source directory.
  - The state holds the processed set, the two counters and a log of
    visits. There is one `Event` per directory the walk yields. It records
    what was decided there, standing in for the script's progress messages.
- `WalkProperties` (`walk_properties.dfy`): properties of a whole run.
- `SampleRun` (`sample_run.dfy`): a concrete run with two runs below one
  task directory.

On a real tree, the check "already processed" (source lines 97-101) never
fires. The processed set only gains the task directory just handled and its
immediate sub-directories. The walk then prunes those sub-directories, and
it never yields a directory twice. `RunGuarantees` proves this for any tree
whose directories hold distinct names. The model keeps the branch anyway,
as the source has it.

Two consequences of how the script builds paths:

- The output path depends only on the task name and the parent directory's
  name (`TargetDependsOnTaskAndModel`). So `a/model_x/gsm8k` and
  `b/model_x/gsm8k` both copy to `target/gsm8k/model_x/result.json`, and the
  later copy overwrites the earlier one.
- On a walk path the task name is the last segment. So the model-name
  derivation fails only when that segment is also the first one
  (`ModelNameIsParent`).

## Model

| member | source | states |
|---|---|---|
| `Snapshot.Lookup` | Plotting/run_this_before_plotting_organize_harness.py:30-33 | only a non-empty path inside the snapshot resolves; the snapshot's base path resolves to its top directory |
| `Snapshot.Subdirs` | Plotting/run_this_before_plotting_organize_harness.py:88-89 | every entry of the `dirs` of a walk step is a directory of the listing, and every directory of the listing is among them |
| `Snapshot.SubdirsAppend` | Plotting/run_this_before_plotting_organize_harness.py:88-89 | the `dirs` of a concatenated listing are those of the first part followed by those of the second, so listing order is kept |
| `Snapshot.SubdirsOfOne` | Plotting/run_this_before_plotting_organize_harness.py:88-89 | a single entry is kept exactly when it is a directory; with `SubdirsAppend` this fixes `dirs` as the listing's directories in listing order |
| `ResultFinder.DirCandidates` | Plotting/run_this_before_plotting_organize_harness.py:36-49 | a listing yields a candidate exactly for each entry that is a regular file named `results_*.json` with a readable mtime, at path directory + name |
| `ResultFinder.Candidates` | Plotting/run_this_before_plotting_organize_harness.py:30-52 | a candidate is exactly a result file found directly in one of the search paths; a path that is no directory, or cannot be listed, contributes nothing |
| `ResultFinder.NewestTracksMaximum` | Plotting/run_this_before_plotting_organize_harness.py:25-45 | the running maximum is at least 0 and bounds every candidate's mtime; no file is chosen exactly when it is still 0; a chosen file has that mtime and every earlier candidate is strictly older |
| `ResultFinder.NewestSelectsFirstNewest` | Plotting/run_this_before_plotting_organize_harness.py:25-55 | the result is `None` iff no candidate has mtime > 0; otherwise it is the first candidate with the greatest mtime, and conversely the first newest candidate (with positive mtime) is the one returned, so the first one met wins a tie |
| `ResultFinder.NewestResultIsNewestCandidate` | Plotting/run_this_before_plotting_organize_harness.py:13-55 | the search returns `None` iff no candidate is newer than 0; otherwise the first newest candidate, which lies directly in one of the search paths |
| `ResultFinder.ScanListing` | Plotting/run_this_before_plotting_organize_harness.py:36-49 | offering one listing's entries in order to the running maximum of the candidates seen so far gives the running maximum of those candidates followed by the listing's candidates |
| `ResultFinder.FindNewestResultFile` | Plotting/run_this_before_plotting_organize_harness.py:13-55 | the nested scan returns exactly `NewestResult`, the strict running maximum over the candidates in iteration order |
| `Organizer.LastIndexOf` | Plotting/run_this_before_plotting_organize_harness.py:112 | none iff the name is absent; otherwise an index holding the name, with no later occurrence |
| `Organizer.DeriveModelName` | Plotting/run_this_before_plotting_organize_harness.py:107-126 | fails as "not in path" iff the task is absent, as "at top" iff its only occurrence is the first segment; otherwise the segment before the last occurrence |
| `Organizer.ModelNameIsParent` | Plotting/run_this_before_plotting_organize_harness.py:107-120 | for a directory named like the task, the model name is its parent's name, and there is none exactly when its path has one segment |
| `Organizer.Step` | Plotting/run_this_before_plotting_organize_harness.py:89-184 | one visit is logged; no task: passed through; already processed: pruned, nothing changes; one segment: skipped and pruned; no result: skipped, not pruned; found: the searched paths marked processed, one copy of the newest result to `target/task/parent/result.json`, copied or (copy raising) skipped, pruned; exactly one counter moves per evaluated task directory |
| `Organizer.DecideAt` | Plotting/run_this_before_plotting_organize_harness.py:92-167 | the task test, the processed test, the model name, the search over the directory and its sub-directories and the copy outcome yield exactly the decision `Step` records |
| `Organizer.ApplyDecision` | Plotting/run_this_before_plotting_organize_harness.py:118-184 | applying a decision moves the processed set, the counters, the log and the pruning flag exactly as `Step` states |
| `Organizer.MarkProcessed` | Plotting/run_this_before_plotting_organize_harness.py:146-148 | the processed set gains exactly the task directory and each of its immediate sub-directories |
| `Organizer.WalkStackPushed` | Plotting/run_this_before_plotting_organize_harness.py:88 | pushing the sub-directories on the stack walks each of them completely, in listing order, before the rest of the stack |
| `Organizer.OrganizeResults` | Plotting/run_this_before_plotting_organize_harness.py:58-184 | a missing or non-directory source is an error; otherwise the stack-driven loop ends in exactly the state of the pre-order walk `WalkTree` from the source |
| `WalkProperties.StepAccounted` | Plotting/run_this_before_plotting_organize_harness.py:118-182 | one step keeps the counters equal to the number of copying and of skipping visits |
| `WalkProperties.TreeAccounted` | Plotting/run_this_before_plotting_organize_harness.py:88-184 | a whole walk keeps `copied` equal to the copying visits and `skipped` to the skipping visits |
| `WalkProperties.EvaluationsSplit` | Plotting/run_this_before_plotting_organize_harness.py:118-182 | copying visits plus skipping visits are exactly the evaluated task directories |
| `WalkProperties.TreeSpan` | Plotting/run_this_before_plotting_organize_harness.py:88 | the walk below a directory only appends to the log and the processed set; every visit lies below it; a listable directory is visited first |
| `WalkProperties.TreeNoRevisit` | Plotting/run_this_before_plotting_organize_harness.py:84-101 | in a tree with distinct names, when nothing below a directory is processed, the walk below it never meets an already processed task directory, and marks processed only paths below it |
| `WalkProperties.TreeOrder` | Plotting/run_this_before_plotting_organize_harness.py:97-184 | in a tree with distinct names, a visit whose path is a prefix of a later visit's path descended (no task, or no result), and the two differ: nothing below a pruned task directory is visited, and no directory is visited twice |
| `WalkProperties.ChildrenVisited` | Plotting/run_this_before_plotting_organize_harness.py:179-184 | every listable sub-directory of a directory the walk descends from is visited |
| `WalkProperties.DescendsIntoChildren` | Plotting/run_this_before_plotting_organize_harness.py:176-184 | at a listable directory the first visit is the directory itself; if it descends (no task, or no result found) every listable sub-directory is visited later, otherwise nothing below it is visited |
| `WalkProperties.RunGuarantees` | Plotting/run_this_before_plotting_organize_harness.py:58-190 | after a run the counters equal the copying and skipping visits and sum to the evaluated task directories; every visit lies under the source; in a tree with distinct names the pruning order holds and no task directory is found already processed |
| `WalkProperties.TargetDependsOnTaskAndModel` | Plotting/run_this_before_plotting_organize_harness.py:152-154 | two copy attempts go to the same `result.json` exactly when their task names and parent-directory names agree |
| `WalkProperties.AttemptedTarget` | Plotting/run_this_before_plotting_organize_harness.py:152-154 | an attempted copy is at a path of at least two segments and goes to `target/<last segment>/<second-to-last segment>/result.json` |
| `WalkProperties.TargetFileInjective` | Plotting/run_this_before_plotting_organize_harness.py:152-154 | two target files are equal iff their task names and model names are |
| `SampleRun.NewerRunIsCopied` | Plotting/run_this_before_plotting_organize_harness.py:134-176 | for `harness_results/model_a/gsm8k/{run1,run2}` with the `run2` result newer, the run copies the `run2` file to `organized_results/gsm8k/model_a/result.json` once, and visits nothing below `gsm8k` |

## Left out

- Real filesystem calls are replaced by the snapshot: `os.walk`, `os.listdir`, `os.path.isdir`, `os.path.isfile` and `os.path.getmtime`. The listing order is the snapshot's order. Ordering across operating systems is not modelled.
- Symbolic links are not modelled. `os.walk` lists a link to a directory among `dirs` but does not descend into it. The snapshot has no links.
- Concurrent changes to the tree during a run are not modelled. Neither is anything the tree does between the search and the copy.
- `os.makedirs` for the target root (line 79) and for the model directory (line 158) is not modelled. It is not caught in the source, so its failure would abort the run.
- `shutil.copy2` becomes a recorded copy attempt. Whether it raises is an input: the set `failingCopies` of source files. Metadata preservation and overwriting are outside the model.
- Reading the modification time can fail. This is modelled as an unreadable mtime (`None`) on the file entry. Listing a directory can fail. This is modelled as an unlistable directory: the search skips it, and the walk does not yield it.
- Modification times are integers, not floats. Only comparisons with each other and with 0 matter.
- `os.path.join` is reduced to "a path is a sequence of segments". An absolute path starts with the empty segment.
- `Organizer.DeriveModelName` is applied to the walk path as it stands; `os.path.normpath` (line 107) is not modelled. The two agree when the source path has no `.`, `..` or empty segments and no trailing separator. They differ for a source of `.`. There the script normalises `./gsm8k` to `gsm8k`, finds the task at the first segment, and skips and prunes that directory (lines 112-120). The model instead takes `.` as the model name and copies to `target/gsm8k/./result.json`. A trailing separator on the source would also make Python's `basename` of the first walk root empty; this is not modelled either.
- The progress `print`s are replaced by the log of visits. The final summary is the returned counters.
- `sys.exit(1)` on a missing source directory becomes the error result `SourceNotADirectory`.
- The `__main__` entry point is left out. The configuration constants appear only as the inputs of `SampleRun`.
- Two runs over an unchanged snapshot give the same result, because `Organize` is a function. That is all the model says about idempotence.
