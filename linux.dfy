/** The Linux linkage checker: every file of the artifacts tree is run
    through ldd, and the first token of each output line is a reference that
    must be a system library (by prefix), a shipped file (by suffix) or a
    file lying directly in the artifacts directory. */
module Linux {
  import opened Text
  import opened Matching
  import opened Artifacts
  import opened Runner

  /** The allow-listed library prefixes. */
  const LibPrefix: seq<string> := [
    "linux-vdso.so",
    "libstdc++.so",
    "libgcc_s.so",
    "libc.so",
    "libm.so",
    "libdl.so",
    "libmvec.so",
    "libpthread.so",
    "/lib/ld-linux-",
    "/lib64/ld-linux-"
  ]

  /** Which branch of the classification a reference takes; each logs its
      own label. */
  datatype Verdict = AllowListed | LocalFile | Rejected

  function LogLine(libPath: string, v: Verdict): string {
    match v
    case AllowListed => "VALID: " + libPath
    case LocalFile => "VALID linkage: " + libPath
    case Rejected => "INVALID linkage: " + libPath
  }

  function Classify(libPath: string, libSufix: seq<string>, root: Dir): Verdict {
    if HasPrefixIn(libPath, LibPrefix) || HasSuffixIn(libPath, libSufix) then AllowListed
    else if '/' !in libPath && ExistsInRoot(root, libPath) then LocalFile
    else Rejected
  }

  /** The verdict on one line of ldd output: the reference is its first token. */
  function LineVerdict(line: string, libSufix: seq<string>, root: Dir): Verdict {
    Classify(FirstToken(line), libSufix, root)
  }

  predicate AllLinesPass(lines: seq<string>, libSufix: seq<string>, root: Dir) {
    forall k :: 0 <= k < |lines| ==> LineVerdict(lines[k], libSufix, root) != Rejected
  }

  /** The line logged for one line of ldd output. */
  function LineLog(line: string, libSufix: seq<string>, root: Dir): string {
    LogLine(FirstToken(line), LineVerdict(line, libSufix, root))
  }

  /** One log line per ldd output line, in order. */
  function ScanLog(lines: seq<string>, libSufix: seq<string>, root: Dir): (log: seq<string>)
    ensures |log| == |lines|
    ensures forall k :: 0 <= k < |lines| ==> log[k] == LineLog(lines[k], libSufix, root)
  {
    seq(|lines|, k requires 0 <= k < |lines| => LineLog(lines[k], libSufix, root))
  }

  /** The body of the scan for one line of ldd output: the line it logs
      and whether its reference is accepted. */
  method ScanLine(outputLine: string, libSufix: seq<string>, root: Dir) returns (line: string, accepted: bool)
    ensures line == LineLog(outputLine, libSufix, root)
    ensures accepted <==> LineVerdict(outputLine, libSufix, root) != Rejected
  {
    var libPath := FirstToken(outputLine);
    var isValidLib := MatchesAnyPrefix(libPath, LibPrefix);
    var suffixed := MatchesAnySuffix(libPath, libSufix);
    if suffixed {
      isValidLib := true;
    }
    if isValidLib {
      line, accepted := "VALID: " + libPath, true;
    } else if '/' !in libPath && ExistsInRoot(root, libPath) {
      line, accepted := "VALID linkage: " + libPath, true;
    } else {
      line, accepted := "INVALID linkage: " + libPath, false;
    }
  }

  /** The loop over ldd's output for one file: every line is classified and
      logged, and the flag records whether any reference was rejected. */
  method ScanLddOutput(lines: seq<string>, libSufix: seq<string>, root: Dir) returns (passedTests: bool, log: seq<string>)
    ensures passedTests <==> AllLinesPass(lines, libSufix, root)
    ensures log == ScanLog(lines, libSufix, root)
  {
    passedTests := true;
    log := [];
    for i := 0 to |lines|
      invariant passedTests <==> forall k :: 0 <= k < i ==> LineVerdict(lines[k], libSufix, root) != Rejected
      invariant |log| == i
      invariant forall k :: 0 <= k < i ==> log[k] == LineLog(lines[k], libSufix, root)
    {
      var line, accepted := ScanLine(lines[i], libSufix, root);
      if !accepted {
        passedTests := false;
      }
      log := log + [line];
    }
  }

  /** The inputs of CheckDir: the artifacts tree, the collected file names,
      and ldd's output for each file path. */
  datatype Env = Env(root: Dir, libSufix: seq<string>, ldd: string -> seq<string>)

  /** What CheckDir does with one file: log it, classify every line of its
      ldd output, and throw once all lines are logged if any was rejected. */
  function CheckFile(env: Env, filePath: string): Report {
    var lines := env.ldd(filePath);
    var log := ["Checking: " + filePath] + ScanLog(lines, env.libSufix, env.root);
    if AllLinesPass(lines, env.libSufix, env.root) then Report(log + [""], Pass)
    else Report(log, Fail(InvalidLinkageMessage))
  }

  /** CheckDir: sub-directories first, then the directory's own files; the
      first file with a rejected reference ends the walk. */
  method CheckDir(env: Env, d: Dir, path: string) returns (report: Report)
    ensures report == CheckFiles(env, FilePaths(d, path), CheckFile)
    decreases d
  {
    var log: seq<string> := [];
    for k := 0 to |d.subdirs|
      invariant CheckFiles(env, SubdirFilePaths(d, path, k), CheckFile) == Report(log, Pass)
    {
      var sub := d.subdirs[k];
      var r := CheckDir(env, sub, Combine(path, sub.name));
      SubdirStep(env, d, path, k, log, r, CheckFile);
      if r.outcome.Fail? {
        return Report(log + r.log, r.outcome);
      }
      log := log + r.log;
    }
    OwnFilesStart(d, path);
    for k := 0 to |d.files|
      invariant CheckFiles(env, OwnFilesPrefix(d, path, k), CheckFile) == Report(log, Pass)
    {
      var filePath := Combine(path, d.files[k]);
      var passedTests, lineLog := ScanLddOutput(env.ldd(filePath), env.libSufix, env.root);
      FileStep(env, d, path, k, log, CheckFile(env, filePath), CheckFile);
      if !passedTests {
        return Report(log + (["Checking: " + filePath] + lineLog), Fail(InvalidLinkageMessage));
      }
      log := log + (["Checking: " + filePath] + lineLog + [""]);
    }
    OwnFilesEnd(d, path);
    report := Report(log, Pass);
  }

  /** What Run reports: no file anywhere is an error before anything is
      checked; otherwise the walk's report, with every file name collected. */
  function RunResult(artifactsDir: string, root: Dir, ldd: string -> seq<string>): Report {
    var libSufix := FileNames(root);
    if |libSufix| == 0 then Report([], Fail(NoFilesMessage))
    else CheckFiles(Env(root, libSufix, ldd), FilePaths(root, artifactsDir), CheckFile)
  }

  method Run(artifactsDir: string, root: Dir, ldd: string -> seq<string>) returns (report: Report)
    requires WellFormed(root)
    ensures report == RunResult(artifactsDir, root, ldd)
  {
    var libSufix := new NameList();
    CollectFileNames(root, artifactsDir, libSufix);
    assert libSufix.items == FileNames(root);
    if |libSufix.items| == 0 {
      return Report([], Fail(NoFilesMessage));
    }
    report := CheckDir(Env(root, libSufix.items, ldd), root, artifactsDir);
  }

  // ---------------------------------------------------------- Properties

  /** An empty tree is reported before any file is checked, and only an
      empty tree is: the no-files error comes with an empty log exactly when
      the walk has no file to visit. */
  lemma {:induction false} NoFilesIffEmptyTree(artifactsDir: string, root: Dir, ldd: string -> seq<string>)
    ensures RunResult(artifactsDir, root, ldd).outcome == Fail(NoFilesMessage) <==> FilePaths(root, artifactsDir) == []
    ensures FilePaths(root, artifactsDir) == [] ==> RunResult(artifactsDir, root, ldd).log == []
  {
    NamesMatchPaths(root, artifactsDir);
    var env := Env(root, FileNames(root), ldd);
    var paths := FilePaths(root, artifactsDir);
    if paths != [] && CheckFiles(env, paths, CheckFile).outcome.Fail? {
      FailureComesFromAFile(env, paths, CheckFile);
    }
  }

  /** A run passes exactly when the tree has files and every line of every
      file's ldd output is accepted. */
  lemma {:induction false} RunPassesIff(artifactsDir: string, root: Dir, ldd: string -> seq<string>)
    ensures RunResult(artifactsDir, root, ldd).outcome == Pass <==>
            FilePaths(root, artifactsDir) != [] &&
            forall p :: p in FilePaths(root, artifactsDir) ==> AllLinesPass(ldd(p), FileNames(root), root)
  {
    NamesMatchPaths(root, artifactsDir);
    var env := Env(root, FileNames(root), ldd);
    var paths := FilePaths(root, artifactsDir);
    CheckFilesPassIff(env, paths, CheckFile);
    if RunResult(artifactsDir, root, ldd).outcome == Pass {
      forall p | p in paths ensures AllLinesPass(ldd(p), FileNames(root), root) {
        var k :| 0 <= k < |paths| && paths[k] == p;
        assert CheckFile(env, paths[k]).outcome == Pass;
      }
    }
  }

  /** A reference that starts with an allow-listed prefix is accepted,
      whatever the artifacts hold. */
  lemma {:induction false} PrefixAlwaysValid(libPath: string, k: nat, libSufix: seq<string>, root: Dir)
    requires k < |LibPrefix| && StartsWith(libPath, LibPrefix[k])
    ensures Classify(libPath, libSufix, root) == AllowListed
  {
  }

  /** A reference ending in a collected file name is accepted: a suffix
      test, so a full path that ends in a shipped file's name passes. */
  lemma {:induction false} ShippedNameSuffixValid(dir: string, name: string, root: Dir)
    requires name in FileNames(root)
    ensures Classify(dir + name, FileNames(root), root) == AllowListed
  {
    PathEndingInNameMatches(dir, name, FileNames(root));
  }

  /** A reference with a '/' is never satisfied by a file in the artifacts
      directory: unless allow-listed it is rejected. */
  lemma {:induction false} SlashNeverLocal(libPath: string, libSufix: seq<string>, root: Dir)
    requires '/' in libPath
    ensures Classify(libPath, libSufix, root) != LocalFile
    ensures Classify(libPath, libSufix, root) == Rejected <==> !HasPrefixIn(libPath, LibPrefix) && !HasSuffixIn(libPath, libSufix)
  {
  }

  /** With the names collected from the tree itself, the "VALID linkage"
      branch is never taken: a file lying in the artifacts directory is
      among the collected names, and every reference ends with itself. */
  lemma {:induction false} LocalBranchUnreachable(libPath: string, root: Dir)
    ensures Classify(libPath, FileNames(root), root) != LocalFile
  {
    if '/' !in libPath && ExistsInRoot(root, libPath) {
      RootFilesCollected(root, libPath);
      assert HasSuffixIn(libPath, FileNames(root)) by {
        var k :| 0 <= k < |FileNames(root)| && FileNames(root)[k] == libPath;
        assert EndsWith(libPath, FileNames(root)[k]);
      }
    }
  }

  /** A file fails exactly when some line of its ldd output is rejected; it
      still logs every line before the exception. */
  lemma {:induction false} FileFailsIffRejectedLine(env: Env, filePath: string)
    ensures CheckFile(env, filePath).outcome.Fail? <==>
            exists k :: 0 <= k < |env.ldd(filePath)| && LineVerdict(env.ldd(filePath)[k], env.libSufix, env.root) == Rejected
    ensures CheckFile(env, filePath).outcome.Fail? ==> CheckFile(env, filePath).outcome == Fail(InvalidLinkageMessage)
    ensures |CheckFile(env, filePath).log| == 1 + |env.ldd(filePath)| + (if CheckFile(env, filePath).outcome == Pass then 1 else 0)
  {
  }

  /** In an ldd line such as "\tlibc.so.6 => /lib/x86_64/libc.so.6 (0x7f)"
      or "\tlibfoo.so => not found" the reference classified is the library
      name ldd prints first, not the path it resolved. */
  lemma {:induction false} LddLineClassifiesName(lead: string, lib: string, rest: string, libSufix: seq<string>, root: Dir)
    requires AllWhiteSpace(lead)
    requires lib != [] && NoWhiteSpace(lib)
    requires rest == [] || rest[0] == ' '
    ensures LineVerdict(lead + lib + rest, libSufix, root) == Classify(lib, libSufix, root)
  {
    FirstTokenOfLine(lead, lib, rest);
  }

  /** The versioned C library is accepted whatever the artifacts hold. */
  lemma {:induction false} LibcAllowListed(libSufix: seq<string>, root: Dir)
    ensures Classify("libc.so.6", libSufix, root) == AllowListed
  {
    assert StartsWith("libc.so.6", LibPrefix[3]);
  }
}
