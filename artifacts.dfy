/** The artifacts directory as the checkers see it: a tree of directories,
    each with its sub-directories and its files, listed in the order
    Directory.GetDirectories and Directory.GetFiles return them. */
module Artifacts {
  import opened Text

  datatype Dir = Dir(name: string, subdirs: seq<Dir>, files: seq<string>)

  /** Path.Combine(dir, name) for a directory path without a trailing '/'. */
  function Combine(dir: string, name: string): string {
    dir + "/" + name
  }

  /** A name a directory entry can have: non-empty, without '/'. */
  predicate ValidName(name: string) {
    name != [] && '/' !in name
  }

  predicate WellFormed(d: Dir) {
    (forall f :: f in d.files ==> ValidName(f)) &&
    forall k :: 0 <= k < |d.subdirs| ==> ValidName(d.subdirs[k].name) && WellFormed(d.subdirs[k])
  }

  /** File.Exists(Path.Combine(ArtifactsDir, name)) for a name without '/',
      modelled case-sensitively: a file of exactly that name lies directly
      in the artifacts directory. */
  predicate ExistsInRoot(root: Dir, name: string) {
    name in root.files
  }

  /** The paths of `files` inside the directory at `path`. */
  function PathsIn(path: string, files: seq<string>): (paths: seq<string>)
    ensures |paths| == |files|
  {
    seq(|files|, k requires 0 <= k < |files| => Combine(path, files[k]))
  }

  /** Every file path in the tree at `path`, in the order the checkers visit
      them: each sub-directory's files (recursively) first, then the
      directory's own files. */
  function FilePaths(d: Dir, path: string): seq<string>
    decreases d, |d.subdirs| + 1
  {
    SubdirFilePaths(d, path, |d.subdirs|) + PathsIn(path, d.files)
  }

  /** The file paths of the first `n` sub-directories of `d`. */
  function SubdirFilePaths(d: Dir, path: string, n: nat): seq<string>
    requires n <= |d.subdirs|
    decreases d, n
  {
    if n == 0 then []
    else SubdirFilePaths(d, path, n - 1) + FilePaths(d.subdirs[n - 1], Combine(path, d.subdirs[n - 1].name))
  }

  /** The base names GetValidSufix collects, in the order it collects them. */
  function FileNames(d: Dir): seq<string>
    decreases d, |d.subdirs| + 1
  {
    SubdirFileNames(d, |d.subdirs|) + d.files
  }

  function SubdirFileNames(d: Dir, n: nat): seq<string>
    requires n <= |d.subdirs|
    decreases d, n
  {
    if n == 0 then []
    else SubdirFileNames(d, n - 1) + FileNames(d.subdirs[n - 1])
  }

  /** The paths of the first `n` sub-directories come first in the walk. */
  lemma {:induction false} SubdirPathsPrefix(d: Dir, path: string, n: nat, m: nat)
    requires n <= m <= |d.subdirs|
    ensures SubdirFilePaths(d, path, n) <= SubdirFilePaths(d, path, m)
    decreases m
  {
    if n < m {
      SubdirPathsPrefix(d, path, n, m - 1);
    }
  }

  /** The walk visits the first `n` sub-directories, then the first `k`
      files, before anything else. */
  lemma {:induction false} WalkPrefix(d: Dir, path: string, n: nat, k: nat)
    requires n <= |d.subdirs| && k <= |d.files|
    requires n < |d.subdirs| ==> k == 0
    ensures SubdirFilePaths(d, path, n) + PathsIn(path, d.files[..k]) <= FilePaths(d, path)
  {
    SubdirPathsPrefix(d, path, n, |d.subdirs|);
    assert PathsIn(path, d.files[..k]) <= PathsIn(path, d.files);
  }

  /** The next file of the walk, after the first `k`. */
  lemma {:induction false} PathsInNext(path: string, files: seq<string>, k: nat)
    requires k < |files|
    ensures PathsIn(path, files[..k + 1]) == PathsIn(path, files[..k]) + [Combine(path, files[k])]
  {
  }

  /** Path.GetFileName of every path. */
  function BaseNames(paths: seq<string>): (names: seq<string>)
    ensures |names| == |paths|
  {
    seq(|paths|, k requires 0 <= k < |paths| => GetFileName(paths[k]))
  }

  lemma {:induction false} BaseNamesAppend(a: seq<string>, b: seq<string>)
    ensures BaseNames(a + b) == BaseNames(a) + BaseNames(b)
  {
  }

  lemma {:induction false} BaseNamesOfPathsIn(path: string, files: seq<string>)
    requires forall f :: f in files ==> ValidName(f)
    ensures BaseNames(PathsIn(path, files)) == files
  {
    forall k | 0 <= k < |files|
      ensures BaseNames(PathsIn(path, files))[k] == files[k]
    {
      assert files[k] in files;
      FileNameOfCombined(path, files[k]);
    }
  }

  /** The names GetValidSufix collects are exactly the base names of the
      files CheckDir visits, position by position: every file in every
      sub-directory contributes its name. */
  lemma {:induction false} FileNamesAreBaseNames(d: Dir, path: string)
    requires WellFormed(d)
    ensures FileNames(d) == BaseNames(FilePaths(d, path))
    decreases d, |d.subdirs| + 1
  {
    SubdirFileNamesAreBaseNames(d, path, |d.subdirs|);
    BaseNamesOfPathsIn(path, d.files);
    BaseNamesAppend(SubdirFilePaths(d, path, |d.subdirs|), PathsIn(path, d.files));
  }

  lemma {:induction false} SubdirFileNamesAreBaseNames(d: Dir, path: string, n: nat)
    requires WellFormed(d)
    requires n <= |d.subdirs|
    ensures SubdirFileNames(d, n) == BaseNames(SubdirFilePaths(d, path, n))
    decreases d, n
  {
    if n > 0 {
      var sub := d.subdirs[n - 1];
      SubdirFileNamesAreBaseNames(d, path, n - 1);
      FileNamesAreBaseNames(sub, Combine(path, sub.name));
      BaseNamesAppend(SubdirFilePaths(d, path, n - 1), FilePaths(sub, Combine(path, sub.name)));
    }
  }

  /** The tree holds a file somewhere exactly when the walk collects a name,
      exactly when it visits a path. */
  lemma {:induction false} NamesMatchPaths(d: Dir, path: string)
    ensures |FileNames(d)| == |FilePaths(d, path)|
    decreases d, |d.subdirs| + 1
  {
    SubdirNamesMatchPaths(d, path, |d.subdirs|);
  }

  lemma {:induction false} SubdirNamesMatchPaths(d: Dir, path: string, n: nat)
    requires n <= |d.subdirs|
    ensures |SubdirFileNames(d, n)| == |SubdirFilePaths(d, path, n)|
    decreases d, n
  {
    if n > 0 {
      SubdirNamesMatchPaths(d, path, n - 1);
      NamesMatchPaths(d.subdirs[n - 1], Combine(path, d.subdirs[n - 1].name));
    }
  }

  /** Every name directly in the root is among the collected names. */
  lemma {:induction false} RootFilesCollected(d: Dir, name: string)
    requires ExistsInRoot(d, name)
    ensures name in FileNames(d)
  {
    assert FileNames(d) == SubdirFileNames(d, |d.subdirs|) + d.files;
  }

  /** The List<string> GetValidSufix appends to. */
  class NameList {
    var items: seq<string>

    constructor ()
      ensures items == []
    {
      items := [];
    }

    method Add(name: string)
      modifies this
      ensures items == old(items) + [name]
    {
      items := items + [name];
    }
  }

  /** GetValidSufix: walks the tree at `path`, sub-directories first, and
      appends the file name of every file to `names`. */
  method CollectFileNames(d: Dir, path: string, names: NameList)
    requires WellFormed(d)
    modifies names
    ensures names.items == old(names.items) + FileNames(d)
    decreases d
  {
    for k := 0 to |d.subdirs|
      invariant names.items == old(names.items) + SubdirFileNames(d, k)
    {
      var sub := d.subdirs[k];
      CollectFileNames(sub, Combine(path, sub.name), names);
    }
    for k := 0 to |d.files|
      invariant names.items == old(names.items) + SubdirFileNames(d, |d.subdirs|) + d.files[..k]
    {
      assert d.files[k] in d.files;
      FileNameOfCombined(path, d.files[k]);
      names.Add(GetFileName(Combine(path, d.files[k])));
      assert d.files[..k + 1] == d.files[..k] + [d.files[k]];
    }
    assert d.files[..|d.files|] == d.files;
  }
}
