/**
 * A concrete run over a small tree: one model directory whose task directory
 * holds two runs, each with one result file; the newer one is copied.
 */
module SampleRun {
  import opened Wrappers
  import opened Snapshot
  import opened ResultFinder
  import opened Organizer

  const Tasks: seq<string> := ["gsm8k", "leaderboard", "mmlu"]
  const TaskPath: Path := ["harness_results", "model_a", "gsm8k"]
  const Older: Path := TaskPath + ["run1", "results_2024.json"]
  const Newer: Path := TaskPath + ["run2", "results_2025.json"]

  function Run1(): Entry { Dir("run1", true, [File("results_2024.json", true, Some(1))]) }
  function Run2(): Entry { Dir("run2", true, [File("results_2025.json", true, Some(2))]) }
  function Gsm(): Entry { Dir("gsm8k", true, [Run1(), Run2()]) }
  function ModelA(): Entry { Dir("model_a", true, [Gsm()]) }
  function Top(): Entry { Dir("harness_results", true, [ModelA()]) }
  function Fs(): FileSystem { FileSystem(["harness_results"], Top()) }
  function Cfg(): Config { Config(Fs(), ["organized_results"], Tasks, {}) }

  lemma ExampleLookups()
    ensures Lookup(Fs(), TaskPath) == Some(Gsm())
    ensures Lookup(Fs(), TaskPath + ["run1"]) == Some(Run1())
    ensures Lookup(Fs(), TaskPath + ["run2"]) == Some(Run2())
  {
    assert ChildNamed(Top().children, "model_a") == Some(ModelA());
    assert ChildNamed(ModelA().children, "gsm8k") == Some(Gsm());
    assert ChildNamed(Gsm().children, "run1") == Some(Run1());
    assert ChildNamed(Gsm().children, "run2") == Some(Run2());
    assert Resolve(Gsm(), ["run1"]) == Some(Run1());
    assert Resolve(Gsm(), ["run2"]) == Some(Run2());
    assert Resolve(ModelA(), ["gsm8k"]) == Some(Gsm());
    assert Resolve(ModelA(), ["gsm8k", "run1"]) == Some(Run1());
    assert Resolve(ModelA(), ["gsm8k", "run2"]) == Some(Run2());
    assert Resolve(Top(), ["model_a", "gsm8k"]) == Some(Gsm());
    assert Resolve(Top(), ["model_a", "gsm8k", "run1"]) == Some(Run1());
    assert Resolve(Top(), ["model_a", "gsm8k", "run2"]) == Some(Run2());
    assert (TaskPath + ["run1"])[1..] == ["model_a", "gsm8k", "run1"];
    assert (TaskPath + ["run2"])[1..] == ["model_a", "gsm8k", "run2"];
    assert TaskPath[1..] == ["model_a", "gsm8k"];
  }

  lemma ResultNames()
    ensures IsResultName("results_2024.json") && IsResultName("results_2025.json")
  {
    var s1, s2 := "results_2024.json", "results_2025.json";
    assert s1[..8] == "results_" && s1[|s1| - 5..] == ".json";
    assert s2[..8] == "results_" && s2[|s2| - 5..] == ".json";
  }

  lemma RunCandidates()
    ensures DirCandidates(TaskPath + ["run1"], Run1().children) == [Candidate(Older, 1)]
    ensures DirCandidates(TaskPath + ["run2"], Run2().children) == [Candidate(Newer, 2)]
    ensures DirCandidates(TaskPath, Gsm().children) == []
  {
    ResultNames();
    assert TaskPath + ["run1"] + ["results_2024.json"] == Older;
    assert TaskPath + ["run2"] + ["results_2025.json"] == Newer;
    assert Run1().children[..0] == [];
    assert Run2().children[..0] == [];
    assert [Run1(), Run2()][..1] == [Run1()];
    assert [Run1()][..0] == [];
    assert DirCandidates(TaskPath, [Run1()]) == [];
  }

  lemma ExampleSearchPaths()
    ensures SearchPaths(TaskPath, Gsm()) == [TaskPath, TaskPath + ["run1"], TaskPath + ["run2"]]
  {
    assert Subdirs(Gsm().children) == [Run1(), Run2()];
  }

  lemma ExampleListings()
    ensures PathCandidates(Fs(), TaskPath) == []
    ensures PathCandidates(Fs(), TaskPath + ["run1"]) == [Candidate(Older, 1)]
    ensures PathCandidates(Fs(), TaskPath + ["run2"]) == [Candidate(Newer, 2)]
  {
    ExampleLookups();
    RunCandidates();
  }

  lemma ExampleCandidates()
    ensures Candidates(Fs(), SearchPaths(TaskPath, Gsm())) == [Candidate(Older, 1), Candidate(Newer, 2)]
  {
    ExampleSearchPaths();
    ExampleListings();
    var p := TaskPath;
    var paths := [p, p + ["run1"], p + ["run2"]];
    assert paths[..2][..1] == [p];
    assert paths[..2] == [p, p + ["run1"]];
    assert [p][..0] == [];
    assert Candidates(Fs(), [p]) == [];
    assert Candidates(Fs(), paths[..2]) == [Candidate(Older, 1)];
  }

  lemma ExampleSearch()
    ensures NewestResult(Fs(), SearchPaths(TaskPath, Gsm())) == Some(Newer)
  {
    ExampleCandidates();
    var cs := [Candidate(Older, 1), Candidate(Newer, 2)];
    assert cs[..1] == [Candidate(Older, 1)];
    assert Newest(cs[..1]) == Scan(Some(Older), 1);
  }

  const Target: Path := ["organized_results", "gsm8k", "model_a", "result.json"]
  const Visit1 := Event(["harness_results"], NotATask)
  const Visit2 := Event(["harness_results", "model_a"], NotATask)
  const Visit3 := Event(TaskPath, Copied(Newer, Target))

  lemma TaskModelName()
    ensures DeriveModelName(TaskPath, "gsm8k") == Ok("model_a")
  {
    ModelNameIsParent(TaskPath);
  }

  lemma TaskDecision()
    ensures Decide(Cfg(), {}, TaskPath, Gsm()) == Copied(Newer, Target)
  {
    ExampleSearch();
    TaskModelName();
    assert TaskPath[2] == "gsm8k" && "gsm8k" in Tasks;
  }

  lemma TopStep()
    ensures Step(Cfg(), ["harness_results"], Top(), InitialState) == Moved(State1, true)
  {
    assert Decide(Cfg(), {}, ["harness_results"], Top()) == NotATask;
  }

  lemma ModelStep()
    ensures Step(Cfg(), ["harness_results", "model_a"], ModelA(), State1) == Moved(State2, true)
  {
    assert Decide(Cfg(), {}, ["harness_results", "model_a"], ModelA()) == NotATask;
  }

  lemma TaskStep()
    ensures Step(Cfg(), TaskPath, Gsm(), State2) == Moved(State3, false)
  {
    TaskDecision();
  }

  const State1 := WalkState({}, 0, 0, [Visit1])
  const State2 := WalkState({}, 0, 0, [Visit1, Visit2])
  const State3 := WalkState(SearchedSet(TaskPath, Gsm()), 1, 0, [Visit1, Visit2, Visit3])

  lemma WalkTaskLevel()
    ensures WalkTree(Cfg(), TaskPath, Gsm(), State2) == State3
  {
    TaskStep();
  }

  lemma ModelChildren()
    ensures WalkChildren(Cfg(), ["harness_results", "model_a"], [Gsm()], State2) == State3
  {
    WalkTaskLevel();
    assert ["harness_results", "model_a"] + [Gsm().name] == TaskPath;
    assert [Gsm()][1..] == [];
  }

  lemma WalkModelLevel()
    ensures WalkTree(Cfg(), ["harness_results", "model_a"], ModelA(), State1) == State3
  {
    ModelStep();
    ModelChildren();
    assert Subdirs(ModelA().children) == [Gsm()];
  }

  lemma TopChildren()
    ensures WalkChildren(Cfg(), ["harness_results"], [ModelA()], State1) == State3
  {
    WalkModelLevel();
    assert ["harness_results"] + [ModelA().name] == ["harness_results", "model_a"];
    assert [ModelA()][1..] == [];
  }

  lemma WalkTopLevel()
    ensures WalkTree(Cfg(), ["harness_results"], Top(), InitialState) == State3
  {
    TopStep();
    TopChildren();
    assert Subdirs(Top().children) == [ModelA()];
  }

  /**
   * Of two runs below one task directory, the newer result is the one copied,
   * and nothing below the task directory is visited.
   */
  lemma NewerRunIsCopied()
    ensures Organize(Cfg(), ["harness_results"]) == Ok(State3)
  {
    assert Lookup(Fs(), ["harness_results"]) == Some(Top());
    WalkTopLevel();
  }
}
