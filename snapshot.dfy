/**
 * An in-memory snapshot of the part of the filesystem the organiser looks at.
 * Paths are sequences of segments (a normalised path split at the separator;
 * an absolute path starts with the empty segment).
 */
module Snapshot {
  import opened Wrappers

  type Path = seq<string>

  /**
   * One directory entry, as listing a directory shows it.
   * - `regular` is what `os.path.isfile` answers for a file entry;
   * - `mtime` is `None` when reading the modification time raises;
   * - `readable` is false when listing the directory raises.
   */
  datatype Entry =
    | File(name: string, regular: bool, mtime: Option<int>)
    | Dir(name: string, readable: bool, children: seq<Entry>)

  /** The directory entry `top` sits at the non-empty path `base`. */
  datatype FileSystem = FileSystem(base: Path, top: Entry)

  predicate IsPrefix(p: Path, q: Path) {
    |p| <= |q| && q[..|p|] == p
  }

  /** Follow the segments `rel` downwards from `e`; a name picks the first child carrying it. */
  function Resolve(e: Entry, rel: Path): (r: Option<Entry>)
    ensures rel == [] ==> r == Some(e)
    decreases rel
  {
    if rel == [] then Some(e)
    else if e.File? then None
    else
      match ChildNamed(e.children, rel[0])
      case None => None
      case Some(c) => Resolve(c, rel[1..])
  }

  function ChildNamed(cs: seq<Entry>, name: string): (r: Option<Entry>)
    ensures r.None? <==> forall i :: 0 <= i < |cs| ==> cs[i].name != name
    ensures r.Some? ==> exists i :: 0 <= i < |cs| && cs[i] == r.value && r.value.name == name
  {
    if cs == [] then None
    else if cs[0].name == name then Some(cs[0])
    else ChildNamed(cs[1..], name)
  }

  /**
   * What the filesystem holds at `p`. The empty path names nothing, and the
   * snapshot says nothing about paths outside `fs.base`.
   */
  function Lookup(fs: FileSystem, p: Path): (r: Option<Entry>)
    ensures r.Some? ==> p != [] && IsPrefix(fs.base, p)
    ensures p == fs.base && p != [] ==> r == Some(fs.top)
  {
    if p != [] && fs.base != [] && IsPrefix(fs.base, p) then Resolve(fs.top, p[|fs.base|..])
    else None
  }

  /** The sub-directories among `cs`, in listing order (the `dirs` of a walk step). */
  function Subdirs(cs: seq<Entry>): (r: seq<Entry>)
    ensures forall i :: 0 <= i < |r| ==> r[i].Dir? && r[i] in cs
    ensures forall c :: c in cs && c.Dir? ==> c in r
    ensures |r| <= |cs|
    ensures SizeOfAll(r) <= SizeOfAll(cs)
  {
    if cs == [] then []
    else if cs[0].Dir? then [cs[0]] + Subdirs(cs[1..])
    else Subdirs(cs[1..])
  }

  /** A one-entry listing has itself as sub-directory exactly when it is a directory. */
  lemma SubdirsOfOne(c: Entry)
    ensures Subdirs([c]) == if c.Dir? then [c] else []
  {
    assert [c][1..] == [];
  }

  /** `Subdirs` keeps listing order: the sub-directories of `a + b` are those of `a`, then those of `b`. */
  lemma {:induction false} SubdirsAppend(a: seq<Entry>, b: seq<Entry>)
    ensures Subdirs(a + b) == Subdirs(a) + Subdirs(b)
  {
    if a == [] {
      assert a + b == b;
    } else {
      assert (a + b)[0] == a[0];
      assert (a + b)[1..] == a[1..] + b;
      SubdirsAppend(a[1..], b);
    }
  }

  /** The paths of the entries `ds` inside the directory at `p`. */
  function ChildPaths(p: Path, ds: seq<Entry>): (r: seq<Path>)
    ensures |r| == |ds|
    ensures forall i :: 0 <= i < |ds| ==> r[i] == p + [ds[i].name]
  {
    seq(|ds|, i requires 0 <= i < |ds| => p + [ds[i].name])
  }

  /** Number of entries in the subtree: the measure that bounds a walk. */
  function Size(e: Entry): (n: nat)
    ensures n >= 1
    decreases e, 1
  {
    match e
    case File(_, _, _) => 1
    case Dir(_, _, cs) => 1 + SizeOfAll(cs)
  }

  function SizeOfAll(cs: seq<Entry>): nat
    decreases cs, 0
  {
    if cs == [] then 0 else Size(cs[0]) + SizeOfAll(cs[1..])
  }

  lemma {:induction false} SizeOfAllAppend(a: seq<Entry>, b: seq<Entry>)
    ensures SizeOfAll(a + b) == SizeOfAll(a) + SizeOfAll(b)
  {
    if a != [] {
      assert (a + b)[1..] == a[1..] + b;
      SizeOfAllAppend(a[1..], b);
    } else {
      assert a + b == b;
    }
  }

  /** No two entries of `cs` share a name. */
  predicate UniqueNames(cs: seq<Entry>) {
    forall i, j :: 0 <= i < j < |cs| ==> cs[i].name != cs[j].name
  }

  /** A real directory tree: no two entries of one directory share a name, at any depth. */
  predicate DistinctNames(e: Entry) {
    match e
    case File(_, _, _) => true
    case Dir(_, _, cs) => UniqueNames(cs) && forall i :: 0 <= i < |cs| ==> DistinctNames(cs[i])
  }

  /** The sub-directories of a real directory are real directories with distinct names. */
  lemma SubdirsDistinct(cs: seq<Entry>)
    requires UniqueNames(cs) && forall i :: 0 <= i < |cs| ==> DistinctNames(cs[i])
    ensures var ds := Subdirs(cs);
      UniqueNames(ds) && forall i :: 0 <= i < |ds| ==> DistinctNames(ds[i])
  {
    SubdirsUniqueNames(cs);
    var ds := Subdirs(cs);
    forall i | 0 <= i < |ds| ensures DistinctNames(ds[i]) {
      var k :| 0 <= k < |cs| && cs[k] == ds[i];
    }
  }

  lemma {:induction false} SubdirsUniqueNames(cs: seq<Entry>)
    requires UniqueNames(cs)
    ensures UniqueNames(Subdirs(cs))
  {
    if cs != [] {
      var tail := cs[1..];
      assert forall i :: 0 <= i < |tail| ==> tail[i] == cs[i + 1];
      SubdirsUniqueNames(tail);
      var rest := Subdirs(tail);
      if cs[0].Dir? {
        var ds := [cs[0]] + rest;
        forall j | 0 <= j < |rest| ensures rest[j].name != cs[0].name {
          var k :| 0 <= k < |tail| && tail[k] == rest[j];
          assert rest[j] == cs[k + 1];
        }
        forall i, j | 0 <= i < j < |ds| ensures ds[i].name != ds[j].name {
          assert ds[j] == rest[j - 1];
        }
      }
    }
  }
}
