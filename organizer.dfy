/**
 * The walk over the source tree: every directory the walk reaches is looked
 * at once; a directory named like a configured task has its model name
 * derived from its path, its newest result searched for in itself and its
 * immediate sub-directories, and that result copied to
 * `target/task/model/result.json`. The walk keeps a set of processed paths
 * and two counters, and does not descend below a task directory it has
 * handled unless no result was found there.
 */
module Organizer {
  import opened Wrappers
  import opened Snapshot
  import opened ResultFinder

  const ResultFileName: string := "result.json"

  datatype ModelNameError = TaskNotInPath | TaskAtTop

  /** What one task directory turned into. */
  datatype Decision =
    | NotATask
    | AlreadyProcessed
    | BadStructure
    | NoResult
    | Copied(source: Path, target: Path)
    | CopyFailed(source: Path, target: Path)
  {
    /** The walk goes on into the sub-directories. */
    predicate Descends() { NotATask? || NoResult? }
    /** One of the two counters moves. */
    predicate Evaluated() { !NotATask? && !AlreadyProcessed? }
    /** A copy was attempted. */
    predicate Attempted() { Copied? || CopyFailed? }
    /** The skip counter moves. */
    predicate Skipped() { BadStructure? || NoResult? || CopyFailed? }
  }

  /** One directory the walk yielded, with what was decided there (the script's progress messages). */
  datatype Event = Event(path: Path, decision: Decision)

  /** The run's mutable state: processed task paths, the two counters and the log of visits. */
  datatype WalkState = WalkState(processed: set<Path>, copied: nat, skipped: nat, visits: seq<Event>)

  /**
   * The inputs of a run besides the source path: the snapshot, the target
   * directory, the task names and the source files whose copy raises.
   */
  datatype Config = Config(fs: FileSystem, target: Path, tasks: seq<string>, failingCopies: set<Path>)

  /** The state after one directory, and whether the walk goes into its sub-directories. */
  datatype Moved = Moved(next: WalkState, descend: bool)

  /** A directory waiting on the walk's stack. */
  datatype Pending = Pending(path: Path, dir: Entry)

  datatype SetupError = SourceNotADirectory

  const InitialState := WalkState({}, 0, 0, [])

  /** The position of the last `x` in `parts`. */
  function LastIndexOf(parts: Path, x: string): (r: Option<nat>)
    ensures r.None? <==> x !in parts
    ensures r.Some? ==>
      && r.value < |parts| && parts[r.value] == x
      && forall j :: r.value < j < |parts| ==> parts[j] != x
  {
    if parts == [] then None
    else if parts[|parts| - 1] == x then Some(|parts| - 1)
    else LastIndexOf(parts[..|parts| - 1], x)
  }

  /** `i` is the last occurrence of `task` in `parts`, and not the first segment. */
  predicate IsModelPosition(parts: Path, task: string, i: int) {
    0 < i < |parts| && parts[i] == task && forall j :: i < j < |parts| ==> parts[j] != task
  }

  /**
   * The model name of a task directory: the segment just before the last
   * occurrence of the task name in its normalised path. It fails when the
   * task name is absent or its last occurrence is the first segment.
   */
  function DeriveModelName(parts: Path, task: string): (r: Result<string, ModelNameError>)
    ensures (r.Err? && r.error == TaskNotInPath) <==> task !in parts
    ensures (r.Err? && r.error == TaskAtTop) <==>
      task in parts && forall j :: 0 < j < |parts| ==> parts[j] != task
    ensures r.Ok? ==> exists i :: IsModelPosition(parts, task, i) && r.value == parts[i - 1]
  {
    var last := LastIndexOf(parts, task);
    if last.None? then Err(TaskNotInPath)
    else if last.value > 0 then
      assert IsModelPosition(parts, task, last.value);
      Ok(parts[last.value - 1])
    else Err(TaskAtTop)
  }

  /**
   * On the path of a directory named `task`, the last occurrence is the
   * directory itself, so the model name is its parent's name, and there is
   * none exactly when the path has a single segment.
   */
  lemma ModelNameIsParent(p: Path)
    requires p != []
    ensures DeriveModelName(p, p[|p| - 1]) == if |p| >= 2 then Ok(p[|p| - 2]) else Err(TaskAtTop)
  {
    var r := DeriveModelName(p, p[|p| - 1]);
    if r.Ok? {
      var i :| IsModelPosition(p, p[|p| - 1], i) && r.value == p[i - 1];
      assert i == |p| - 1;
    }
  }

  /** Where the newest result of the task directory `p` is looked for: `p` and its sub-directories. */
  function SearchPaths(p: Path, d: Entry): seq<Path>
    requires d.Dir?
  {
    [p] + ChildPaths(p, Subdirs(d.children))
  }

  /** The paths a successful search marks processed. */
  function SearchedSet(p: Path, d: Entry): set<Path>
    requires d.Dir?
  {
    set q | q in SearchPaths(p, d)
  }

  function TargetFile(cfg: Config, task: string, model: string): Path {
    cfg.target + [task, model, ResultFileName]
  }

  function Decide(cfg: Config, processed: set<Path>, p: Path, d: Entry): Decision
    requires p != [] && d.Dir?
  {
    var name := p[|p| - 1];
    if name !in cfg.tasks then NotATask
    else if p in processed then AlreadyProcessed
    else
      match DeriveModelName(p, name)
      case Err(_) => BadStructure
      case Ok(model) =>
        match NewestResult(cfg.fs, SearchPaths(p, d))
        case None => NoResult
        case Some(f) =>
          if f in cfg.failingCopies then CopyFailed(f, TargetFile(cfg, name, model))
          else Copied(f, TargetFile(cfg, name, model))
  }

  /**
   * What the walk does at the directory `d` found at `p`: it records one
   * visit; a directory whose name is no task is passed through; a task
   * directory already processed is pruned and changes nothing; otherwise
   * exactly one counter moves, and the walk is pruned unless no result was
   * found. A found result marks the searched paths processed and is copied to
   * `target/task/model/result.json`, where `model` is the parent's name.
   */
  function Step(cfg: Config, p: Path, d: Entry, st: WalkState): (s: Moved)
    requires p != [] && d.Dir?
    ensures |s.next.visits| == |st.visits| + 1 && s.next.visits[..|st.visits|] == st.visits
    ensures var e := s.next.visits[|st.visits|]; var name := p[|p| - 1];
      e.path == p &&
      (e.decision.NotATask? <==> name !in cfg.tasks) &&
      (e.decision.AlreadyProcessed? <==> name in cfg.tasks && p in st.processed) &&
      (e.decision.BadStructure? <==> name in cfg.tasks && p !in st.processed && |p| == 1) &&
      (e.decision.NoResult? <==> name in cfg.tasks && p !in st.processed && |p| >= 2 &&
                                 NewestResult(cfg.fs, SearchPaths(p, d)).None?) &&
      (e.decision.Attempted() <==> name in cfg.tasks && p !in st.processed && |p| >= 2 &&
                                   NewestResult(cfg.fs, SearchPaths(p, d)).Some?) &&
      (e.decision.Attempted() ==>
         |p| >= 2 && Some(e.decision.source) == NewestResult(cfg.fs, SearchPaths(p, d)) &&
         e.decision.target == cfg.target + [name, p[|p| - 2], ResultFileName] &&
         (e.decision.Copied? <==> e.decision.source !in cfg.failingCopies)) &&
      (s.descend <==> e.decision.Descends()) &&
      s.next.copied + s.next.skipped == st.copied + st.skipped + (if e.decision.Evaluated() then 1 else 0) &&
      s.next.copied == st.copied + (if e.decision.Copied? then 1 else 0) &&
      s.next.processed ==
        if e.decision.Attempted() then st.processed + SearchedSet(p, d) else st.processed
  {
    ModelNameIsParent(p);
    Advance(st, p, d, Decide(cfg, st.processed, p, d))
  }

  /** The effect of `decision`, taken at the directory `d` found at `p`, on the walk state. */
  function Advance(st: WalkState, p: Path, d: Entry, decision: Decision): Moved
    requires d.Dir?
  {
    var processed :=
      if decision.Attempted() then st.processed + SearchedSet(p, d) else st.processed;
    var copied := st.copied + if decision.Copied? then 1 else 0;
    var skipped := st.skipped + if decision.Skipped() then 1 else 0;
    Moved(WalkState(processed, copied, skipped, st.visits + [Event(p, decision)]), decision.Descends())
  }

  /**
   * The walk below `d` (found at `p`), in pre-order. A directory that cannot
   * be listed is not yielded at all.
   */
  function WalkTree(cfg: Config, p: Path, d: Entry, st: WalkState): WalkState
    requires p != [] && d.Dir?
    decreases Size(d), 1
  {
    if !d.readable then st
    else
      var s := Step(cfg, p, d, st);
      if s.descend then WalkChildren(cfg, p, Subdirs(d.children), s.next) else s.next
  }

  /** The walks below the sub-directories `ds` of the directory at `p`, one after the other. */
  function WalkChildren(cfg: Config, p: Path, ds: seq<Entry>, st: WalkState): WalkState
    requires p != [] && forall i :: 0 <= i < |ds| ==> ds[i].Dir?
    decreases SizeOfAll(ds), 2
  {
    if ds == [] then st
    else WalkChildren(cfg, p, ds[1..], WalkTree(cfg, p + [ds[0].name], ds[0], st))
  }

  ghost predicate ValidStack(stack: seq<Pending>) {
    forall i :: 0 <= i < |stack| ==> stack[i].path != [] && stack[i].dir.Dir?
  }

  /** The rest of the walk when `stack` is pending, its first element next. */
  function WalkStack(cfg: Config, stack: seq<Pending>, st: WalkState): WalkState
    requires ValidStack(stack)
    decreases |stack|
  {
    if stack == [] then st
    else WalkStack(cfg, stack[1..], WalkTree(cfg, stack[0].path, stack[0].dir, st))
  }

  /** The sub-directories `ds` of `p` as stack entries, the first one on top. */
  function Pushed(p: Path, ds: seq<Entry>): (r: seq<Pending>)
    ensures |r| == |ds|
    ensures forall i :: 0 <= i < |ds| ==> r[i] == Pending(p + [ds[i].name], ds[i])
  {
    seq(|ds|, i requires 0 <= i < |ds| => Pending(p + [ds[i].name], ds[i]))
  }

  function StackSize(stack: seq<Pending>): nat {
    if stack == [] then 0 else Size(stack[0].dir) + StackSize(stack[1..])
  }

  lemma {:induction false} StackSizePushed(p: Path, ds: seq<Entry>, rest: seq<Pending>)
    ensures StackSize(Pushed(p, ds) + rest) == SizeOfAll(ds) + StackSize(rest)
  {
    if ds == [] {
      assert Pushed(p, ds) + rest == rest;
    } else {
      assert (Pushed(p, ds) + rest)[1..] == Pushed(p, ds[1..]) + rest;
      StackSizePushed(p, ds[1..], rest);
    }
  }

  /** Pushing the sub-directories on the stack walks them before the rest, in order. */
  lemma {:induction false} WalkStackPushed(cfg: Config, p: Path, ds: seq<Entry>, rest: seq<Pending>, st: WalkState)
    requires p != [] && forall i :: 0 <= i < |ds| ==> ds[i].Dir?
    requires ValidStack(rest)
    ensures ValidStack(Pushed(p, ds) + rest)
    ensures WalkStack(cfg, Pushed(p, ds) + rest, st) == WalkStack(cfg, rest, WalkChildren(cfg, p, ds, st))
  {
    var stack := Pushed(p, ds) + rest;
    if ds == [] {
      assert stack == rest;
    } else {
      assert stack[1..] == Pushed(p, ds[1..]) + rest;
      WalkStackPushed(cfg, p, ds[1..], rest, WalkTree(cfg, p + [ds[0].name], ds[0], st));
    }
  }

  /** The whole run: a missing or non-directory source is an error, otherwise the walk from it. */
  function Organize(cfg: Config, source: Path): Result<WalkState, SetupError> {
    match Lookup(cfg.fs, source)
    case Some(d) =>
      if d.Dir? then Ok(WalkTree(cfg, source, d, InitialState)) else Err(SourceNotADirectory)
    case None => Err(SourceNotADirectory)
  }

  /**
   * What the walk decides at the directory `d` found at `p`: the task test,
   * the processed test, the model name, the newest-result search and whether
   * the copy succeeds.
   */
  method DecideAt(cfg: Config, processed: set<Path>, p: Path, d: Entry) returns (decision: Decision)
    requires p != [] && d.Dir?
    ensures decision == Decide(cfg, processed, p, d)
  {
    var name := p[|p| - 1];
    if name !in cfg.tasks {
      return NotATask;
    }
    if p in processed {
      return AlreadyProcessed;
    }
    match DeriveModelName(p, name) {
      case Err(_) =>
        decision := BadStructure;
      case Ok(model) =>
        var searchPaths := [p] + ChildPaths(p, Subdirs(d.children));
        var newest := FindNewestResultFile(cfg.fs, searchPaths);
        match newest {
          case None =>
            decision := NoResult;
          case Some(f) =>
            var target := cfg.target + [name, model, ResultFileName];
            if f in cfg.failingCopies {
              decision := CopyFailed(f, target);
            } else {
              decision := Copied(f, target);
            }
        }
    }
  }

  /**
   * The rest of the walk loop's body at the directory `d` found at `p`, once
   * `decision` is taken: the new processed set, counters and log, and whether
   * to prune.
   */
  method ApplyDecision(st: WalkState, p: Path, d: Entry, decision: Decision)
    returns (next: WalkState, prune: bool)
    requires d.Dir?
    ensures Moved(next, !prune) == Advance(st, p, d, decision)
  {
    var processed, copied, skipped := st.processed, st.copied, st.skipped;
    if decision.Attempted() {
      processed := MarkProcessed(processed, p, Subdirs(d.children));
    }
    if decision.Copied? {
      copied := copied + 1;
    } else if decision.Skipped() {
      skipped := skipped + 1;
    }
    next := WalkState(processed, copied, skipped, st.visits + [Event(p, decision)]);
    prune := !decision.Descends();
  }

  /**
   * `organize_results`: the walk as an explicit stack of pending directories,
   * with the processed set, the two counters and the log as its state.
   */
  method OrganizeResults(cfg: Config, source: Path) returns (r: Result<WalkState, SetupError>)
    ensures r == Organize(cfg, source)
  {
    var top := Lookup(cfg.fs, source);
    if top.None? || !top.value.Dir? {
      return Err(SourceNotADirectory);
    }
    var st := InitialState;
    var stack := [Pending(source, top.value)];
    while stack != []
      invariant ValidStack(stack)
      invariant WalkStack(cfg, stack, st) == WalkTree(cfg, source, top.value, InitialState)
      decreases StackSize(stack)
    {
      var p, d := stack[0].path, stack[0].dir;
      stack := stack[1..];
      if d.readable {
        var prune;
        ghost var before := st;
        var decision := DecideAt(cfg, st.processed, p, d);
        st, prune := ApplyDecision(st, p, d, decision);
        assert Moved(st, !prune) == Step(cfg, p, d, before);
        if !prune {
          var dirs := Subdirs(d.children);
          WalkStackPushed(cfg, p, dirs, stack, st);
          StackSizePushed(p, dirs, stack);
          stack := Pushed(p, dirs) + stack;
        }
      }
    }
    r := Ok(st);
  }

  /** Adding the task directory and each of its sub-directories to the processed set. */
  method MarkProcessed(processed: set<Path>, p: Path, dirs: seq<Entry>) returns (r: set<Path>)
    ensures r == processed + set q | q in [p] + ChildPaths(p, dirs)
  {
    r := processed + {p};
    for k := 0 to |dirs|
      invariant r == processed + {p} + set i | 0 <= i < k :: p + [dirs[i].name]
    {
      r := r + {p + [dirs[k].name]};
    }
  }
}
