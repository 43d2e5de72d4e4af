/**
 * What the walk guarantees over a whole run: the counters account for the
 * visits, every visit lies in the subtree being walked, a directory below a
 * pruned task directory is never visited, a task directory is never
 * evaluated twice, and the sub-directories of a directory the walk descends
 * from are all visited.
 */
module WalkProperties {
  import opened Wrappers
  import opened Snapshot
  import opened ResultFinder
  import opened Organizer

  /** Number of visits that copied a result. */
  function Copies(vs: seq<Event>): nat {
    if vs == [] then 0 else Copies(vs[..|vs| - 1]) + if vs[|vs| - 1].decision.Copied? then 1 else 0
  }

  /** Number of visits that counted as skipped. */
  function Skips(vs: seq<Event>): nat {
    if vs == [] then 0 else Skips(vs[..|vs| - 1]) + if vs[|vs| - 1].decision.Skipped() then 1 else 0
  }

  /** Number of visits that evaluated a task directory. */
  function Evaluations(vs: seq<Event>): nat {
    if vs == [] then 0 else Evaluations(vs[..|vs| - 1]) + if vs[|vs| - 1].decision.Evaluated() then 1 else 0
  }

  /** The counters say how many visits copied and how many skipped. */
  ghost predicate Accounted(st: WalkState) {
    st.copied == Copies(st.visits) && st.skipped == Skips(st.visits)
  }

  /** Every evaluated task directory moved exactly one of the two counters. */
  lemma {:induction false} EvaluationsSplit(vs: seq<Event>)
    ensures Copies(vs) + Skips(vs) == Evaluations(vs)
  {
    if vs != [] {
      EvaluationsSplit(vs[..|vs| - 1]);
    }
  }

  lemma StepAccounted(cfg: Config, p: Path, d: Entry, st: WalkState)
    requires p != [] && d.Dir? && Accounted(st)
    ensures Accounted(Step(cfg, p, d, st).next)
  {
    var vs := Step(cfg, p, d, st).next.visits;
    assert vs[..|vs| - 1] == st.visits;
  }

  lemma {:induction false} TreeAccounted(cfg: Config, p: Path, d: Entry, st: WalkState)
    requires p != [] && d.Dir? && Accounted(st)
    ensures Accounted(WalkTree(cfg, p, d, st))
    decreases Size(d), 1
  {
    if d.readable {
      StepAccounted(cfg, p, d, st);
      var s := Step(cfg, p, d, st);
      if s.descend {
        ChildrenAccounted(cfg, p, Subdirs(d.children), s.next);
      }
    }
  }

  lemma {:induction false} ChildrenAccounted(cfg: Config, p: Path, ds: seq<Entry>, st: WalkState)
    requires p != [] && (forall i :: 0 <= i < |ds| ==> ds[i].Dir?) && Accounted(st)
    ensures Accounted(WalkChildren(cfg, p, ds, st))
    decreases SizeOfAll(ds), 2
  {
    if ds != [] {
      TreeAccounted(cfg, p + [ds[0].name], ds[0], st);
      ChildrenAccounted(cfg, p, ds[1..], WalkTree(cfg, p + [ds[0].name], ds[0], st));
    }
  }

  /** The names of the entries `ds`. */
  function Names(ds: seq<Entry>): set<string> {
    set c | c in ds :: c.name
  }

  /** `q` lies strictly below `p`, inside one of the entries `ds` of `p`. */
  ghost predicate Below(q: Path, p: Path, ds: seq<Entry>) {
    |q| > |p| && IsPrefix(p, q) && q[|p|] in Names(ds)
  }

  lemma ExtendPrefix(p: Path, n: string, q: Path)
    ensures IsPrefix(p + [n], q) <==> |q| > |p| && IsPrefix(p, q) && q[|p|] == n
  {
    if |q| > |p| {
      assert q[..|p| + 1] == q[..|p|] + [q[|p|]];
    }
  }

  /**
   * The walk below `d` only appends to the log and the processed set; the
   * visits it adds lie below `p`, and the first of them, if `d` can be
   * listed, is `p` itself.
   */
  lemma {:induction false} TreeSpan(cfg: Config, p: Path, d: Entry, st: WalkState)
    requires p != [] && d.Dir?
    ensures var r := WalkTree(cfg, p, d, st);
      |r.visits| >= |st.visits| && r.visits[..|st.visits|] == st.visits &&
      st.processed <= r.processed &&
      (forall i :: |st.visits| <= i < |r.visits| ==> IsPrefix(p, r.visits[i].path)) &&
      (d.readable ==> |r.visits| > |st.visits| && r.visits[|st.visits|].path == p)
    decreases Size(d), 1
  {
    if d.readable {
      var s := Step(cfg, p, d, st);
      assert IsPrefix(p, p);
      if s.descend {
        var ds := Subdirs(d.children);
        ChildrenSpan(cfg, p, ds, s.next);
        var r := WalkChildren(cfg, p, ds, s.next);
        assert r.visits[..|st.visits|] == s.next.visits[..|s.next.visits|][..|st.visits|];
        assert r.visits[|st.visits|] == s.next.visits[|st.visits|];
      }
    }
  }

  lemma {:induction false} ChildrenSpan(cfg: Config, p: Path, ds: seq<Entry>, st: WalkState)
    requires p != [] && forall i :: 0 <= i < |ds| ==> ds[i].Dir?
    ensures var r := WalkChildren(cfg, p, ds, st);
      |r.visits| >= |st.visits| && r.visits[..|st.visits|] == st.visits &&
      st.processed <= r.processed &&
      forall i :: |st.visits| <= i < |r.visits| ==> Below(r.visits[i].path, p, ds)
    decreases SizeOfAll(ds), 2
  {
    if ds != [] {
      var q := p + [ds[0].name];
      TreeSpan(cfg, q, ds[0], st);
      var r1 := WalkTree(cfg, q, ds[0], st);
      ChildrenSpan(cfg, p, ds[1..], r1);
      var r := WalkChildren(cfg, p, ds[1..], r1);
      assert r.visits[..|st.visits|] == r.visits[..|r1.visits|][..|st.visits|];
      forall i | |st.visits| <= i < |r.visits| ensures Below(r.visits[i].path, p, ds) {
        if i < |r1.visits| {
          assert r.visits[i] == r.visits[..|r1.visits|][i];
          ExtendPrefix(p, ds[0].name, r.visits[i].path);
        } else {
          assert Below(r.visits[i].path, p, ds[1..]);
          assert r.visits[i].path[|p|] in Names(ds[1..]);
        }
      }
    }
  }

  lemma SearchedUnder(p: Path, d: Entry)
    requires d.Dir?
    ensures forall q :: q in SearchedSet(p, d) ==> IsPrefix(p, q)
  {
    forall q | q in SearchedSet(p, d) ensures IsPrefix(p, q) {
      var k :| 0 <= k < |SearchPaths(p, d)| && SearchPaths(p, d)[k] == q;
      if k > 0 {
        assert q == p + [Subdirs(d.children)[k - 1].name];
        assert q[..|p|] == p;
      }
    }
  }

  /**
   * When nothing at or below `p` is processed yet, the walk below `d` never
   * meets an already processed task directory, and whatever it marks
   * processed lies at or below `p`.
   */
  lemma {:induction false} TreeNoRevisit(cfg: Config, p: Path, d: Entry, st: WalkState)
    requires p != [] && d.Dir? && DistinctNames(d)
    requires forall q :: q in st.processed ==> !IsPrefix(p, q)
    ensures var r := WalkTree(cfg, p, d, st);
      (forall i :: |st.visits| <= i < |r.visits| ==> !r.visits[i].decision.AlreadyProcessed?) &&
      (forall q :: q in r.processed && q !in st.processed ==> IsPrefix(p, q))
    decreases Size(d), 1
  {
    if d.readable {
      var s := Step(cfg, p, d, st);
      assert IsPrefix(p, p);
      SearchedUnder(p, d);
      if s.descend {
        var ds := Subdirs(d.children);
        SubdirsDistinct(d.children);
        forall q, k | q in s.next.processed && 0 <= k < |ds| ensures !IsPrefix(p + [ds[k].name], q) {
          ExtendPrefix(p, ds[k].name, q);
        }
        ChildrenNoRevisit(cfg, p, ds, s.next);
        ChildrenSpan(cfg, p, ds, s.next);
        var r := WalkChildren(cfg, p, ds, s.next);
        assert r.visits[|st.visits|] == r.visits[..|s.next.visits|][|st.visits|];
        forall q | q in r.processed && q !in st.processed ensures IsPrefix(p, q) {
          assert Below(q, p, ds);
        }
      }
    }
  }

  lemma {:induction false} ChildrenNoRevisit(cfg: Config, p: Path, ds: seq<Entry>, st: WalkState)
    requires p != [] && forall i :: 0 <= i < |ds| ==> ds[i].Dir? && DistinctNames(ds[i])
    requires UniqueNames(ds)
    requires forall q, k :: q in st.processed && 0 <= k < |ds| ==> !IsPrefix(p + [ds[k].name], q)
    ensures var r := WalkChildren(cfg, p, ds, st);
      (forall i :: |st.visits| <= i < |r.visits| ==> !r.visits[i].decision.AlreadyProcessed?) &&
      (forall q :: q in r.processed && q !in st.processed ==> Below(q, p, ds))
    decreases SizeOfAll(ds), 2
  {
    if ds != [] {
      var q0 := p + [ds[0].name];
      TreeNoRevisit(cfg, q0, ds[0], st);
      var r1 := WalkTree(cfg, q0, ds[0], st);
      forall q, k | q in r1.processed && 0 <= k < |ds[1..]| ensures !IsPrefix(p + [ds[1..][k].name], q) {
        if q !in st.processed {
          ExtendPrefix(p, ds[0].name, q);
          ExtendPrefix(p, ds[k + 1].name, q);
        }
      }
      ChildrenNoRevisit(cfg, p, ds[1..], r1);
      ChildrenSpan(cfg, p, ds[1..], r1);
      var r := WalkChildren(cfg, p, ds[1..], r1);
      TreeSpan(cfg, q0, ds[0], st);
      forall i | |st.visits| <= i < |r1.visits| ensures !r.visits[i].decision.AlreadyProcessed? {
        assert r.visits[i] == r.visits[..|r1.visits|][i] == r1.visits[i];
      }
      forall q | q in r.processed && q !in st.processed ensures Below(q, p, ds) {
        if q in r1.processed {
          ExtendPrefix(p, ds[0].name, q);
        } else {
          assert q[|p|] in Names(ds[1..]);
        }
      }
    }
  }

  /**
   * From index `lo` on, a visit whose path is a prefix of a later visit's
   * path is a directory the walk descended from, and the two are different:
   * nothing below a pruned directory is visited after it, and no directory is
   * visited twice.
   */
  ghost predicate OrderedFrom(vs: seq<Event>, lo: nat) {
    forall i, j :: lo <= i < j < |vs| && IsPrefix(vs[i].path, vs[j].path) ==>
      vs[i].decision.Descends() && vs[i].path != vs[j].path
  }

  lemma {:induction false} TreeOrder(cfg: Config, p: Path, d: Entry, st: WalkState)
    requires p != [] && d.Dir? && DistinctNames(d)
    ensures OrderedFrom(WalkTree(cfg, p, d, st).visits, |st.visits|)
    decreases Size(d), 1
  {
    if d.readable {
      var s := Step(cfg, p, d, st);
      if s.descend {
        var ds := Subdirs(d.children);
        SubdirsDistinct(d.children);
        ChildrenOrder(cfg, p, ds, s.next);
        ChildrenSpan(cfg, p, ds, s.next);
        var r := WalkChildren(cfg, p, ds, s.next);
        var n := |st.visits|;
        assert r.visits[n] == r.visits[..|s.next.visits|][n];
        forall i, j | n <= i < j < |r.visits| && IsPrefix(r.visits[i].path, r.visits[j].path)
          ensures r.visits[i].decision.Descends() && r.visits[i].path != r.visits[j].path
        {
          if i == n {
            assert Below(r.visits[j].path, p, ds);
          }
        }
      }
    }
  }

  lemma {:induction false} ChildrenOrder(cfg: Config, p: Path, ds: seq<Entry>, st: WalkState)
    requires p != [] && forall i :: 0 <= i < |ds| ==> ds[i].Dir? && DistinctNames(ds[i])
    requires UniqueNames(ds)
    ensures OrderedFrom(WalkChildren(cfg, p, ds, st).visits, |st.visits|)
    decreases SizeOfAll(ds), 2
  {
    if ds != [] {
      var q0 := p + [ds[0].name];
      TreeOrder(cfg, q0, ds[0], st);
      TreeSpan(cfg, q0, ds[0], st);
      var r1 := WalkTree(cfg, q0, ds[0], st);
      ChildrenOrder(cfg, p, ds[1..], r1);
      ChildrenSpan(cfg, p, ds[1..], r1);
      var r := WalkChildren(cfg, p, ds[1..], r1);
      assert ds[0].name !in Names(ds[1..]) by {
        forall c | c in ds[1..] ensures c.name != ds[0].name {
          var k :| 0 <= k < |ds[1..]| && ds[1..][k] == c;
          assert ds[k + 1] == c;
        }
      }
      forall i, j | |st.visits| <= i < j < |r.visits| && IsPrefix(r.visits[i].path, r.visits[j].path)
        ensures r.visits[i].decision.Descends() && r.visits[i].path != r.visits[j].path
      {
        if i < |r1.visits| {
          assert r.visits[i] == r.visits[..|r1.visits|][i];
          if j < |r1.visits| {
            assert r.visits[j] == r.visits[..|r1.visits|][j];
          } else {
            var a, b := r.visits[i].path, r.visits[j].path;
            ExtendPrefix(p, ds[0].name, a);
            assert false;
          }
        }
      }
    }
  }

  /** Every listable sub-directory among `ds` is visited. */
  lemma {:induction false} ChildrenVisited(cfg: Config, p: Path, ds: seq<Entry>, st: WalkState)
    requires p != [] && forall i :: 0 <= i < |ds| ==> ds[i].Dir?
    ensures var r := WalkChildren(cfg, p, ds, st);
      forall k :: 0 <= k < |ds| && ds[k].readable ==>
        exists j :: |st.visits| <= j < |r.visits| && r.visits[j].path == p + [ds[k].name]
    decreases |ds|
  {
    if ds != [] {
      var q0 := p + [ds[0].name];
      TreeSpan(cfg, q0, ds[0], st);
      var r1 := WalkTree(cfg, q0, ds[0], st);
      ChildrenVisited(cfg, p, ds[1..], r1);
      ChildrenSpan(cfg, p, ds[1..], r1);
      var r := WalkChildren(cfg, p, ds[1..], r1);
      assert r == WalkChildren(cfg, p, ds, st);
      forall k | 0 <= k < |ds| && ds[k].readable
        ensures exists j :: |st.visits| <= j < |r.visits| && r.visits[j].path == p + [ds[k].name]
      {
        if k == 0 {
          var j := |st.visits|;
          assert r.visits[j] == r.visits[..|r1.visits|][j] == r1.visits[j];
          assert r.visits[j].path == p + [ds[k].name];
        } else {
          assert ds[1..][k - 1] == ds[k];
          var j :| |r1.visits| <= j < |r.visits| && r.visits[j].path == p + [ds[1..][k - 1].name];
        }
      }
    }
  }

  /**
   * At a directory it can list, the walk first visits the directory itself;
   * if the decision there descends (no task, or no result found), every
   * listable sub-directory is visited afterwards, and otherwise nothing
   * further below it is visited.
   */
  lemma DescendsIntoChildren(cfg: Config, p: Path, d: Entry, st: WalkState)
    requires p != [] && d.Dir? && d.readable
    ensures var r := WalkTree(cfg, p, d, st); var n := |st.visits|;
      |r.visits| > n && r.visits[n].path == p &&
      (r.visits[n].decision.Descends() ==>
         forall c :: c in d.children && c.Dir? && c.readable ==>
           exists j :: n < j < |r.visits| && r.visits[j].path == p + [c.name]) &&
      (!r.visits[n].decision.Descends() ==> |r.visits| == n + 1)
  {
    TreeSpan(cfg, p, d, st);
    var s := Step(cfg, p, d, st);
    var n := |st.visits|;
    if s.descend {
      var ds := Subdirs(d.children);
      ChildrenVisited(cfg, p, ds, s.next);
      ChildrenSpan(cfg, p, ds, s.next);
      var r := WalkChildren(cfg, p, ds, s.next);
      assert r.visits[n] == r.visits[..|s.next.visits|][n];
      forall c | c in d.children && c.Dir? && c.readable
        ensures exists j :: n < j < |r.visits| && r.visits[j].path == p + [c.name]
      {
        var k :| 0 <= k < |ds| && ds[k] == c;
      }
    }
  }

  /**
   * What a whole run guarantees. The counters are the number of visits that
   * copied and that skipped, so together they count the evaluated task
   * directories; every visit lies under the source directory. In a real tree
   * (distinct names in each directory), no directory is visited twice,
   * nothing below a pruned task directory is visited, and the
   * already-processed check never fires.
   */
  lemma RunGuarantees(cfg: Config, source: Path)
    requires Organize(cfg, source).Ok?
    ensures var st := Organize(cfg, source).value;
      st.copied == Copies(st.visits) && st.skipped == Skips(st.visits) &&
      st.copied + st.skipped == Evaluations(st.visits) &&
      (forall i :: 0 <= i < |st.visits| ==> IsPrefix(source, st.visits[i].path)) &&
      (DistinctNames(Lookup(cfg.fs, source).value) ==>
         OrderedFrom(st.visits, 0) &&
         forall i :: 0 <= i < |st.visits| ==> !st.visits[i].decision.AlreadyProcessed?)
  {
    var d := Lookup(cfg.fs, source).value;
    assert Accounted(InitialState);
    TreeAccounted(cfg, source, d, InitialState);
    TreeSpan(cfg, source, d, InitialState);
    var st := WalkTree(cfg, source, d, InitialState);
    EvaluationsSplit(st.visits);
    if DistinctNames(d) {
      TreeOrder(cfg, source, d, InitialState);
      TreeNoRevisit(cfg, source, d, InitialState);
    }
  }

  /** An attempted copy goes to `target/task/parent/result.json`. */
  lemma AttemptedTarget(cfg: Config, done: set<Path>, p: Path, d: Entry)
    requires p != [] && d.Dir? && Decide(cfg, done, p, d).Attempted()
    ensures |p| >= 2 && Decide(cfg, done, p, d).target == TargetFile(cfg, p[|p| - 1], p[|p| - 2])
  {
    ModelNameIsParent(p);
  }

  /** Distinct (task, model) pairs have distinct target files. */
  lemma TargetFileInjective(cfg: Config, task1: string, model1: string, task2: string, model2: string)
    ensures TargetFile(cfg, task1, model1) == TargetFile(cfg, task2, model2) <==>
      task1 == task2 && model1 == model2
  {
    var n := |cfg.target|;
    if TargetFile(cfg, task1, model1) == TargetFile(cfg, task2, model2) {
      assert TargetFile(cfg, task1, model1)[n] == TargetFile(cfg, task2, model2)[n];
      assert TargetFile(cfg, task1, model1)[n + 1] == TargetFile(cfg, task2, model2)[n + 1];
    }
  }

  /**
   * Where a task directory's result is copied depends only on the task name
   * and the parent directory's name: two task directories agreeing on both
   * write the same `result.json`, the later copy overwriting the earlier.
   */
  lemma TargetDependsOnTaskAndModel(
    cfg: Config, done1: set<Path>, p1: Path, d1: Entry, done2: set<Path>, p2: Path, d2: Entry)
    requires p1 != [] && d1.Dir? && p2 != [] && d2.Dir?
    requires Decide(cfg, done1, p1, d1).Attempted() && Decide(cfg, done2, p2, d2).Attempted()
    ensures |p1| >= 2 && |p2| >= 2
    ensures Decide(cfg, done1, p1, d1).target == Decide(cfg, done2, p2, d2).target <==>
      p1[|p1| - 1] == p2[|p2| - 1] && p1[|p1| - 2] == p2[|p2| - 2]
  {
    AttemptedTarget(cfg, done1, p1, d1);
    AttemptedTarget(cfg, done2, p2, d2);
    TargetFileInjective(cfg, p1[|p1| - 1], p1[|p1| - 2], p2[|p2| - 1], p2[|p2| - 2]);
  }
}
