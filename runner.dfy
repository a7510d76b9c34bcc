/** What the three checkers share: the log and outcome of a run, the fixed
    error messages, and the rule that a run stops at the first file that
    fails (the exception leaves CheckDir at once, with no aggregation). */
module Runner {
  import opened Artifacts

  datatype Outcome = Pass | Fail(message: string)

  /** The lines written with context.Information and how the run ended. */
  datatype Report = Report(log: seq<string>, outcome: Outcome)

  const NoFilesMessage := "There are no files in the artifacts directory to test"
  const InvalidLinkageMessage := "Invalid library linkage detected!"
  const NotUniversalMessage := "An universal binary hasn't been generated!"

  /** Checks `paths` in order with `check`, stopping at the first file whose
      check fails; the log keeps every line written up to that point. */
  function CheckFiles<E>(env: E, paths: seq<string>, check: (E, string) -> Report): Report
  {
    if paths == [] then Report([], Pass)
    else
      var first := check(env, paths[0]);
      if first.outcome.Fail? then first
      else
        var rest := CheckFiles(env, paths[1..], check);
        Report(first.log + rest.log, rest.outcome)
  }

  /** Running `b` after `a` unless `a` failed. */
  function Then(a: Report, b: Report): Report {
    if a.outcome.Fail? then a else Report(a.log + b.log, b.outcome)
  }

  /** Checking a + b is checking a, then, unless that failed, checking b. */
  lemma {:induction false} CheckFilesAppend<E>(env: E, a: seq<string>, b: seq<string>, check: (E, string) -> Report)
    ensures CheckFiles(env, a + b, check) == Then(CheckFiles(env, a, check), CheckFiles(env, b, check))
  {
    if a == [] {
      assert a + b == b;
    } else {
      assert (a + b)[1..] == a[1..] + b;
      CheckFilesAppend(env, a[1..], b, check);
    }
  }

  /** Once a prefix of the paths fails, the rest of the paths is never
      looked at. */
  lemma {:induction false} CheckFilesFailedPrefix<E>(env: E, a: seq<string>, whole: seq<string>, check: (E, string) -> Report)
    requires a <= whole
    requires CheckFiles(env, a, check).outcome.Fail?
    ensures CheckFiles(env, whole, check) == CheckFiles(env, a, check)
  {
    assert whole == a + whole[|a|..];
    CheckFilesAppend(env, a, whole[|a|..], check);
  }

  /** The concatenated logs of the given files' checks. */
  function Logs<E>(env: E, paths: seq<string>, check: (E, string) -> Report): seq<string> {
    if paths == [] then [] else check(env, paths[0]).log + Logs(env, paths[1..], check)
  }

  /** A run passes exactly when every file passes, and then its log is every
      file's log in order. */
  lemma {:induction false} CheckFilesPassIff<E>(env: E, paths: seq<string>, check: (E, string) -> Report)
    ensures CheckFiles(env, paths, check).outcome == Pass <==>
            forall k :: 0 <= k < |paths| ==> check(env, paths[k]).outcome == Pass
    ensures CheckFiles(env, paths, check).outcome == Pass ==>
            CheckFiles(env, paths, check).log == Logs(env, paths, check)
  {
    if paths != [] {
      CheckFilesPassIff(env, paths[1..], check);
      assert forall k :: 1 <= k < |paths| ==> paths[k] == paths[1..][k - 1];
    }
  }

  /** At the first failing file the run ends with that file's outcome, after
      the logs of the files before it; no later file matters. */
  lemma {:induction false} CheckFilesStopsAtFirstFailure<E>(env: E, paths: seq<string>, k: nat, check: (E, string) -> Report)
    requires k < |paths|
    requires forall j :: 0 <= j < k ==> check(env, paths[j]).outcome == Pass
    requires check(env, paths[k]).outcome.Fail?
    ensures CheckFiles(env, paths, check).outcome == check(env, paths[k]).outcome
    ensures CheckFiles(env, paths, check).log == Logs(env, paths[..k], check) + check(env, paths[k]).log
    ensures CheckFiles(env, paths, check) == CheckFiles(env, paths[..k + 1], check)
  {
    if k > 0 {
      assert forall j :: 0 <= j < k - 1 ==> paths[1..][j] == paths[j + 1];
      CheckFilesStopsAtFirstFailure(env, paths[1..], k - 1, check);
      assert paths[1..][..k - 1] == paths[..k][1..];
      assert paths[1..][..k] == paths[..k + 1][1..];
    }
  }

  /** A failed run carries the failure of one of its files. */
  lemma {:induction false} FailureComesFromAFile<E>(env: E, paths: seq<string>, check: (E, string) -> Report)
    requires CheckFiles(env, paths, check).outcome.Fail?
    ensures exists k :: 0 <= k < |paths| && check(env, paths[k]).outcome == CheckFiles(env, paths, check).outcome
  {
    var first := check(env, paths[0]);
    if !first.outcome.Fail? {
      FailureComesFromAFile(env, paths[1..], check);
      var k :| 0 <= k < |paths[1..]| && check(env, paths[1..][k]).outcome == CheckFiles(env, paths[1..], check).outcome;
      assert paths[1..][k] == paths[k + 1];
    }
  }

  // The steps of a CheckDir walk, shared by the three checkers.

  /** After one more sub-directory: a failure there ends the whole walk, a
      pass extends the walk over the sub-directories checked so far. */
  lemma {:induction false} SubdirStep<E>(env: E, d: Dir, path: string, k: nat, log: seq<string>, r: Report, check: (E, string) -> Report)
    requires k < |d.subdirs|
    requires CheckFiles(env, SubdirFilePaths(d, path, k), check) == Report(log, Pass)
    requires r == CheckFiles(env, FilePaths(d.subdirs[k], Combine(path, d.subdirs[k].name)), check)
    ensures r.outcome.Fail? ==> CheckFiles(env, FilePaths(d, path), check) == Report(log + r.log, r.outcome)
    ensures !r.outcome.Fail? ==> CheckFiles(env, SubdirFilePaths(d, path, k + 1), check) == Report(log + r.log, r.outcome)
  {
    var sub := d.subdirs[k];
    CheckFilesAppend(env, SubdirFilePaths(d, path, k), FilePaths(sub, Combine(path, sub.name)), check);
    if r.outcome.Fail? {
      WalkPrefix(d, path, k + 1, 0);
      assert d.files[..0] == [];
      assert SubdirFilePaths(d, path, k + 1) + PathsIn(path, d.files[..0]) == SubdirFilePaths(d, path, k + 1);
      CheckFilesFailedPrefix(env, SubdirFilePaths(d, path, k + 1), FilePaths(d, path), check);
    }
  }

  /** The files of the directory's own list checked so far, after all its
      sub-directories. */
  function OwnFilesPrefix(d: Dir, path: string, k: nat): seq<string>
    requires k <= |d.files|
  {
    SubdirFilePaths(d, path, |d.subdirs|) + PathsIn(path, d.files[..k])
  }

  lemma {:induction false} OwnFilesStart(d: Dir, path: string)
    ensures OwnFilesPrefix(d, path, 0) == SubdirFilePaths(d, path, |d.subdirs|)
  {
    assert d.files[..0] == [];
  }

  lemma {:induction false} OwnFilesEnd(d: Dir, path: string)
    ensures OwnFilesPrefix(d, path, |d.files|) == FilePaths(d, path)
  {
    assert d.files[..|d.files|] == d.files;
  }

  /** After one more file of the directory: a failure ends the whole walk, a
      pass extends the prefix. */
  lemma {:induction false} FileStep<E>(env: E, d: Dir, path: string, k: nat, log: seq<string>, r: Report, check: (E, string) -> Report)
    requires k < |d.files|
    requires CheckFiles(env, OwnFilesPrefix(d, path, k), check) == Report(log, Pass)
    requires r == check(env, Combine(path, d.files[k]))
    ensures r.outcome.Fail? ==> CheckFiles(env, FilePaths(d, path), check) == Report(log + r.log, r.outcome)
    ensures !r.outcome.Fail? ==> CheckFiles(env, OwnFilesPrefix(d, path, k + 1), check) == Report(log + r.log, r.outcome)
  {
    var filePath := Combine(path, d.files[k]);
    PathsInNext(path, d.files, k);
    assert OwnFilesPrefix(d, path, k) + [filePath] == OwnFilesPrefix(d, path, k + 1);
    CheckFilesAppend(env, OwnFilesPrefix(d, path, k), [filePath], check);
    assert [filePath][1..] == [];
    if r.outcome.Fail? {
      WalkPrefix(d, path, |d.subdirs|, k + 1);
      CheckFilesFailedPrefix(env, OwnFilesPrefix(d, path, k + 1), FilePaths(d, path), check);
    }
  }
}
