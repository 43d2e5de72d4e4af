/**
 * The newest-result search: among the `results_*.json` regular files lying
 * directly in a list of directories, the one with the largest modification
 * time, where a running maximum starting at 0 is replaced only by a strictly
 * larger time.
 */
module ResultFinder {
  import opened Wrappers
  import opened Snapshot

  const ResultPrefix: string := "results_"
  const ResultSuffix: string := ".json"

  /** A file the search may select, with the modification time it read. */
  datatype Candidate = Candidate(path: Path, mtime: int)

  /** The state of the search: the file chosen so far and the time to beat. */
  datatype Scan = Scan(newest: Option<Path>, latest: int)

  /** `name.startswith('results_') and name.endswith('.json')` */
  predicate IsResultName(name: string) {
    |name| >= |ResultPrefix| && name[..|ResultPrefix|] == ResultPrefix &&
    |name| >= |ResultSuffix| && name[|name| - |ResultSuffix|..] == ResultSuffix
  }

  /** An entry the search takes into account: the right name, a regular file, a readable mtime. */
  predicate IsResultFile(e: Entry) {
    e.File? && IsResultName(e.name) && e.regular && e.mtime.Some?
  }

  /** What listing `p` yields: nothing when `p` is not a directory or cannot be listed. */
  function Listing(fs: FileSystem, p: Path): Option<seq<Entry>> {
    match Lookup(fs, p)
    case Some(Dir(_, readable, cs)) => if readable then Some(cs) else None
    case _ => None
  }

  /** `c` is a candidate found directly in the search path `p`. */
  ghost predicate FoundIn(fs: FileSystem, p: Path, c: Candidate) {
    Listing(fs, p).Some? &&
    exists e :: e in Listing(fs, p).value && IsResultFile(e) &&
                c == Candidate(p + [e.name], e.mtime.value)
  }

  /** The candidates among the entries `es` of the directory `dir`, in listing order. */
  function DirCandidates(dir: Path, es: seq<Entry>): (r: seq<Candidate>)
    ensures forall c :: c in r <==>
      exists e :: e in es && IsResultFile(e) && c == Candidate(dir + [e.name], e.mtime.value)
  {
    if es == [] then []
    else
      var e := es[|es| - 1];
      assert es == es[..|es| - 1] + [e];
      DirCandidates(dir, es[..|es| - 1]) +
        (if IsResultFile(e) then [Candidate(dir + [e.name], e.mtime.value)] else [])
  }

  function PathCandidates(fs: FileSystem, p: Path): seq<Candidate> {
    match Listing(fs, p)
    case None => []
    case Some(es) => DirCandidates(p, es)
  }

  /**
   * All candidates of the search, in the order the search meets them:
   * search path by search path, and within one path in listing order.
   * Nothing else is a candidate: not a file in a sub-directory, not a search
   * path that is no directory.
   */
  function Candidates(fs: FileSystem, paths: seq<Path>): (r: seq<Candidate>)
    ensures forall c :: c in r <==> exists k :: 0 <= k < |paths| && FoundIn(fs, paths[k], c)
  {
    if paths == [] then []
    else
      var p := paths[|paths| - 1];
      var front := paths[..|paths| - 1];
      assert forall k :: 0 <= k < |front| ==> front[k] == paths[k];
      Candidates(fs, front) + PathCandidates(fs, p)
  }

  /** The running maximum over `cs`, from `Scan(None, 0)`, replaced only on a strictly larger time. */
  function Newest(cs: seq<Candidate>): Scan {
    if cs == [] then Scan(None, 0)
    else
      var s := Newest(cs[..|cs| - 1]);
      var c := cs[|cs| - 1];
      if c.mtime > s.latest then Scan(Some(c.path), c.mtime) else s
  }

  /** The file `find_newest_result_file(paths)` returns. */
  function NewestResult(fs: FileSystem, paths: seq<Path>): Option<Path> {
    Newest(Candidates(fs, paths)).newest
  }

  /**
   * `cs[i]` is the first candidate with the greatest time, and that time is
   * positive: every candidate is no newer, every earlier one strictly older.
   */
  ghost predicate FirstNewest(cs: seq<Candidate>, i: int) {
    0 <= i < |cs| && cs[i].mtime > 0 &&
    (forall j :: 0 <= j < |cs| ==> cs[j].mtime <= cs[i].mtime) &&
    (forall j :: 0 <= j < i ==> cs[j].mtime < cs[i].mtime)
  }

  /**
   * What the strict running maximum selects: nothing exactly when no
   * candidate is newer than time 0, and otherwise the first candidate with the
   * greatest time, so that the first one met wins a tie.
   */
  lemma {:induction false} NewestSelectsFirstNewest(cs: seq<Candidate>)
    ensures Newest(cs).newest.None? <==> forall j :: 0 <= j < |cs| ==> cs[j].mtime <= 0
    ensures Newest(cs).newest.Some? ==>
      exists i :: FirstNewest(cs, i) && Newest(cs).newest.value == cs[i].path
    ensures forall i :: FirstNewest(cs, i) ==> Newest(cs).newest == Some(cs[i].path)
  {
    NewestTracksMaximum(cs);
    var s := Newest(cs);
    if s.newest.Some? {
      var i :| 0 <= i < |cs| && cs[i].path == s.newest.value && cs[i].mtime == s.latest &&
               forall j :: 0 <= j < i ==> cs[j].mtime < s.latest;
      assert FirstNewest(cs, i);
      forall k | FirstNewest(cs, k) ensures s.newest == Some(cs[k].path) {
        assert cs[i].mtime == cs[k].mtime;
        assert i == k;
      }
    }
  }

  /** The invariant of the running maximum, proved one candidate at a time. */
  lemma {:induction false} NewestTracksMaximum(cs: seq<Candidate>)
    ensures Newest(cs).latest >= 0
    ensures forall j :: 0 <= j < |cs| ==> cs[j].mtime <= Newest(cs).latest
    ensures Newest(cs).newest.None? <==> Newest(cs).latest == 0
    ensures Newest(cs).newest.None? ==> forall j :: 0 <= j < |cs| ==> cs[j].mtime <= 0
    ensures Newest(cs).newest.Some? ==>
      exists i :: 0 <= i < |cs| && cs[i].path == Newest(cs).newest.value &&
        cs[i].mtime == Newest(cs).latest && forall j :: 0 <= j < i ==> cs[j].mtime < Newest(cs).latest
  {
    if cs != [] {
      var front := cs[..|cs| - 1];
      NewestTracksMaximum(front);
      assert forall j :: 0 <= j < |front| ==> front[j] == cs[j];
      var s := Newest(front);
      var c := cs[|cs| - 1];
      if c.mtime > s.latest {
        assert FirstIs: forall j :: 0 <= j < |cs| - 1 ==> cs[j].mtime < c.mtime;
      } else if s.newest.Some? {
        var i :| 0 <= i < |front| && front[i].path == s.newest.value &&
                 front[i].mtime == s.latest && forall j :: 0 <= j < i ==> front[j].mtime < s.latest;
        assert cs[i] == front[i];
      }
    }
  }

  /**
   * The search's result, in terms of the files it inspects: `None` exactly
   * when no candidate is newer than time 0; otherwise the first candidate with
   * the greatest time, which is a regular `results_*.json` file lying directly
   * in one of the search paths.
   */
  lemma NewestResultIsNewestCandidate(fs: FileSystem, paths: seq<Path>)
    ensures var cs := Candidates(fs, paths);
      (NewestResult(fs, paths).None? <==> forall j :: 0 <= j < |cs| ==> cs[j].mtime <= 0) &&
      (NewestResult(fs, paths).Some? ==>
         exists i :: FirstNewest(cs, i) && NewestResult(fs, paths).value == cs[i].path &&
           exists k :: 0 <= k < |paths| && FoundIn(fs, paths[k], cs[i]))
  {
    var cs := Candidates(fs, paths);
    NewestSelectsFirstNewest(cs);
    if Newest(cs).newest.Some? {
      var i :| FirstNewest(cs, i) && Newest(cs).newest.value == cs[i].path;
      assert cs[i] in cs;
      var k :| 0 <= k < |paths| && FoundIn(fs, paths[k], cs[i]);
    }
  }

  lemma DirCandidatesStep(dir: Path, es: seq<Entry>, j: nat)
    requires j < |es|
    ensures DirCandidates(dir, es[..j + 1]) == DirCandidates(dir, es[..j]) +
      (if IsResultFile(es[j]) then [Candidate(dir + [es[j].name], es[j].mtime.value)] else [])
  {
    assert es[..j + 1][..j] == es[..j];
  }

  lemma NewestStep(cs: seq<Candidate>, c: Candidate)
    ensures Newest(cs + [c]) ==
      if c.mtime > Newest(cs).latest then Scan(Some(c.path), c.mtime) else Newest(cs)
  {
    assert (cs + [c])[..|cs|] == cs;
  }

  lemma CandidatesStep(fs: FileSystem, paths: seq<Path>, i: nat)
    requires i < |paths|
    ensures Candidates(fs, paths[..i + 1]) == Candidates(fs, paths[..i]) + PathCandidates(fs, paths[i])
  {
    assert paths[..i + 1][..i] == paths[..i];
  }

  /**
   * The inner loop of `find_newest_result_file`: the entries of one listing
   * `es` of `dir`, offered in order to the running maximum `Newest(seen)`.
   */
  method ScanListing(dir: Path, es: seq<Entry>, ghost seen: seq<Candidate>,
                     newest0: Option<Path>, latest0: int)
    returns (newest: Option<Path>, latest: int)
    requires Scan(newest0, latest0) == Newest(seen)
    ensures Scan(newest, latest) == Newest(seen + DirCandidates(dir, es))
  {
    newest, latest := newest0, latest0;
    assert seen + DirCandidates(dir, es[..0]) == seen;
    for j := 0 to |es|
      invariant Scan(newest, latest) == Newest(seen + DirCandidates(dir, es[..j]))
    {
      var e := es[j];
      DirCandidatesStep(dir, es, j);
      ghost var sofar := seen + DirCandidates(dir, es[..j]);
      if IsResultName(e.name) && e.File? && e.regular {
        match e.mtime {
          case None =>
          case Some(m) =>
            assert seen + DirCandidates(dir, es[..j + 1]) == sofar + [Candidate(dir + [e.name], m)];
            NewestStep(sofar, Candidate(dir + [e.name], m));
            if m > latest {
              latest := m;
              newest := Some(dir + [e.name]);
            }
        }
      } else {
        assert seen + DirCandidates(dir, es[..j + 1]) == sofar;
      }
    }
    assert es[..|es|] == es;
  }

  /** `find_newest_result_file`: a scan of each search path's listing, keeping a strict running maximum. */
  method FindNewestResultFile(fs: FileSystem, searchPaths: seq<Path>) returns (newest: Option<Path>)
    ensures newest == NewestResult(fs, searchPaths)
  {
    newest := None;
    var latest := 0;
    for i := 0 to |searchPaths|
      invariant Scan(newest, latest) == Newest(Candidates(fs, searchPaths[..i]))
    {
      var sp := searchPaths[i];
      CandidatesStep(fs, searchPaths, i);
      ghost var before := Candidates(fs, searchPaths[..i]);
      var found := Lookup(fs, sp);
      if found.Some? && found.value.Dir? && found.value.readable {
        assert PathCandidates(fs, sp) == DirCandidates(sp, found.value.children);
        newest, latest := ScanListing(sp, found.value.children, before, newest, latest);
      } else {
        assert PathCandidates(fs, sp) == [];
        assert before + PathCandidates(fs, sp) == before;
      }
    }
    assert searchPaths[..|searchPaths|] == searchPaths;
  }
}
