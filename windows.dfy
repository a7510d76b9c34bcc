/** The Windows checker: every file of the artifacts tree is run through
    `dumpbin /dependents`; each output line that, trimmed, is a single word
    ending in ".dll" names a dependency, which must be on one of two fixed
    allow-lists. There is no fallback to files shipped beside the binary and
    no check that the tree holds any file at all. */
module Windows {
  import opened Text
  import opened Artifacts
  import opened Runner
  import opened Wrappers


  /** System libraries every Windows build may import. */
  const ValidLibs: seq<string> := [
    "WS2_32.dll",
    "KERNEL32.dll",
    "USER32.dll",
    "GDI32.dll",
    "WINMM.dll",
    "IMM32.dll",
    "ole32.dll",
    "OLEAUT32.dll",
    "VERSION.dll",
    "ADVAPI32.dll",
    "SETUPAPI.dll",
    "SHELL32.dll",
    "SHLWAPI.dll",
    "AVICAP32.dll",
    "bcrypt.dll",
    "msvcrt.dll"
  ]

  /** The Universal C Runtime forwarders that ARM64 builds import; they are
      part of the operating system. */
  const ValidURCTLibs: seq<string> := [
    "api-ms-win-crt-private-l1-1-0.dll",
    "api-ms-win-crt-stdio-l1-1-0.dll",
    "api-ms-win-crt-runtime-l1-1-0.dll",
    "api-ms-win-crt-environment-l1-1-0.dll",
    "api-ms-win-crt-time-l1-1-0.dll",
    "api-ms-win-crt-convert-l1-1-0.dll",
    "api-ms-win-crt-math-l1-1-0.dll",
    "api-ms-win-crt-heap-l1-1-0.dll",
    "api-ms-win-crt-string-l1-1-0.dll",
    "api-ms-win-crt-utility-l1-1-0.dll",
    "api-ms-win-crt-filesystem-l1-1-0.dll",
    "api-ms-win-crt-conio-l1-1-0.dll",
    "api-ms-win-crt-locale-l1-1-0.dll"
  ]

  /** Both lists: the checker accepts a name on either. */
  const AllowList: seq<string> := ValidLibs + ValidURCTLibs

  /** Exact, case-sensitive membership. */
  predicate IsAllowed(libPath: string, allowed: seq<string>) {
    libPath in allowed
  }

  /** The dependency a line of dumpbin output names, if any: the trimmed
      line, when it ends in ".dll" and holds no space. */
  function Candidate(output: string): (c: Option<string>)
    ensures c.Some? ==> EndsWith(c.value, ".dll") && ' ' !in c.value && !IsWhiteSpace(c.value[0])
  {
    var libPath := Trim(output);
    if !EndsWith(libPath, ".dll") || ' ' in libPath then None else Some(libPath)
  }

  /** The dependency named on each line of dumpbin's output, if any. */
  function Candidates(lines: seq<string>): (cs: seq<Option<string>>)
    ensures |cs| == |lines|
  {
    seq(|lines|, k requires 0 <= k < |lines| => Candidate(lines[k]))
  }

  /** A named dependency that is on no list. */
  predicate Rejects(c: Option<string>, allowed: seq<string>) {
    c.Some? && !IsAllowed(c.value, allowed)
  }

  /** What one line logs: nothing when it names no dependency. */
  function EntryLog(c: Option<string>, allowed: seq<string>): (log: seq<string>)
    ensures |log| <= 1
    ensures log != [] <==> c.Some?
  {
    match c
    case None => []
    case Some(libPath) => if IsAllowed(libPath, allowed) then ["VALID: " + libPath] else ["INVALID: " + libPath]
  }

  /** The log of the loop over the first `n` lines. */
  function LogOf(cs: seq<Option<string>>, n: nat, allowed: seq<string>): seq<string>
    requires n <= |cs|
  {
    if n == 0 then [] else LogOf(cs, n - 1, allowed) + EntryLog(cs[n - 1], allowed)
  }

  /** No dependency among the first `n` lines is rejected. */
  predicate PassesOf(cs: seq<Option<string>>, n: nat, allowed: seq<string>)
    requires n <= |cs|
  {
    n == 0 || (PassesOf(cs, n - 1, allowed) && !Rejects(cs[n - 1], allowed))
  }

  function DumpbinLog(lines: seq<string>, allowed: seq<string>): seq<string> {
    LogOf(Candidates(lines), |lines|, allowed)
  }

  predicate DumpbinPasses(lines: seq<string>, allowed: seq<string>) {
    PassesOf(Candidates(lines), |lines|, allowed)
  }

  /** The loop over dumpbin's output for one file. */
  method ScanDumpbinOutput(lines: seq<string>, allowed: seq<string>) returns (passedTests: bool, log: seq<string>)
    ensures passedTests <==> DumpbinPasses(lines, allowed)
    ensures log == DumpbinLog(lines, allowed)
  {
    passedTests := true;
    log := [];
    ghost var cs := Candidates(lines);
    for i := 0 to |lines|
      invariant passedTests == PassesOf(cs, i, allowed)
      invariant log == LogOf(cs, i, allowed)
    {
      assert cs[i] == Candidate(lines[i]);
      var libPath := Trim(lines[i]);
      if !EndsWith(libPath, ".dll") || ' ' in libPath {
        continue;
      }
      if libPath in allowed {
        log := log + ["VALID: " + libPath];
      } else {
        log := log + ["INVALID: " + libPath];
        passedTests := false;
      }
    }
  }

  /** The accepted names (AllowList in every run) and dumpbin's output for
      each file path. */
  datatype Env = Env(allowed: seq<string>, dumpbin: string -> seq<string>)

  /** One file: a "Checking" line, the dependency lines, and the exception
      once all lines are logged if any dependency was rejected; a passing
      file writes no blank line. */
  function CheckFile(env: Env, filePath: string): Report {
    var lines := env.dumpbin(filePath);
    var log := ["Checking: " + filePath] + DumpbinLog(lines, env.allowed);
    if DumpbinPasses(lines, env.allowed) then Report(log, Pass) else Report(log, Fail(InvalidLinkageMessage))
  }

  /** CheckDir: sub-directories first, then the directory's own files; the
      first failing file ends the walk. */
  method CheckDir(env: Env, d: Dir, path: string) returns (report: Report)
    ensures report == CheckFiles(env, FilePaths(d, path), CheckFile)
    decreases d
  {
    var log: seq<string> := [];
    for k := 0 to |d.subdirs|
      invariant CheckFiles(env, SubdirFilePaths(d, path, k), CheckFile) == Report(log, Pass)
    {
      var sub := d.subdirs[k];
      var r := CheckDir(env, sub, Combine(path, sub.name));
      SubdirStep(env, d, path, k, log, r, CheckFile);
      if r.outcome.Fail? {
        return Report(log + r.log, r.outcome);
      }
      log := log + r.log;
    }
    OwnFilesStart(d, path);
    for k := 0 to |d.files|
      invariant CheckFiles(env, OwnFilesPrefix(d, path, k), CheckFile) == Report(log, Pass)
    {
      var filePath := Combine(path, d.files[k]);
      var passedTests, lineLog := ScanDumpbinOutput(env.dumpbin(filePath), env.allowed);
      FileStep(env, d, path, k, log, CheckFile(env, filePath), CheckFile);
      if !passedTests {
        return Report(log + (["Checking: " + filePath] + lineLog), Fail(InvalidLinkageMessage));
      }
      log := log + (["Checking: " + filePath] + lineLog);
    }
    OwnFilesEnd(d, path);
    report := Report(log, Pass);
  }

  /** Run: the walk over the artifacts directory, with nothing checked
      before it. */
  method Run(artifactsDir: string, root: Dir, dumpbin: string -> seq<string>) returns (report: Report)
    ensures report == CheckFiles(Env(AllowList, dumpbin), FilePaths(root, artifactsDir), CheckFile)
  {
    report := CheckDir(Env(AllowList, dumpbin), root, artifactsDir);
  }

  // ---------------------------------------------------------- Properties

  /** A run of lines passes exactly when none of them names a rejected
      dependency. */
  lemma {:induction false} PassesOfIff(cs: seq<Option<string>>, n: nat, allowed: seq<string>)
    requires n <= |cs|
    ensures PassesOf(cs, n, allowed) <==> forall k :: 0 <= k < n ==> !Rejects(cs[k], allowed)
  {
    if n > 0 {
      PassesOfIff(cs, n - 1, allowed);
    }
  }

  /** The log holds one line per named dependency: none exactly when no
      line names one. */
  lemma {:induction false} LogOfLength(cs: seq<Option<string>>, n: nat, allowed: seq<string>)
    requires n <= |cs|
    ensures |LogOf(cs, n, allowed)| <= n
    ensures LogOf(cs, n, allowed) == [] <==> forall k :: 0 <= k < n ==> cs[k].None?
  {
    if n > 0 {
      LogOfLength(cs, n - 1, allowed);
    }
  }

  /** An indented dependency line of dumpbin's output names that
      dependency, and it is rejected exactly when it is on no list. */
  lemma {:induction false} IndentedDllLine(lead: string, name: string, trail: string, allowed: seq<string>)
    requires AllWhiteSpace(lead) && AllWhiteSpace(trail)
    requires name != [] && NoWhiteSpace(name) && EndsWith(name, ".dll")
    ensures Candidate(lead + name + trail) == Some(name)
    ensures Rejects(Candidate(lead + name + trail), allowed) <==> !IsAllowed(name, allowed)
  {
    TrimOfPadded(lead, name, trail);
    NoSpaceIn(name);
  }

  /** A line with a space in it, such as dumpbin's "Dump of file x.dll",
      and a line not ending in ".dll", such as a summary line, are never
      taken for a dependency. */
  lemma {:induction false} NonDependencyLinesIgnored(output: string, allowed: seq<string>)
    requires ' ' in Trim(output) || !EndsWith(Trim(output), ".dll")
    ensures Candidate(output) == None && EntryLog(Candidate(output), allowed) == [] && !Rejects(Candidate(output), allowed)
  {
  }

  /** The extension test is case-sensitive: a dependency written with
      ".DLL" is never examined, so it never fails the file. */
  lemma {:induction false} UpperCaseExtensionIgnored(output: string)
    requires EndsWith(Trim(output), ".DLL")
    ensures Candidate(output) == None
  {
    var t := Trim(output);
    assert t[|t| - 1] == 'L';
  }

  /** The lists are compared exactly: the system library KERNEL32.dll is
      accepted and the same name in lower case is rejected. */
  lemma {:induction false} AllowListIsCaseSensitive()
    ensures IsAllowed("KERNEL32.dll", AllowList)
    ensures !IsAllowed("kernel32.dll", AllowList)
  {
    assert ValidLibs[1] == "KERNEL32.dll";
    assert AllowList[1] == "KERNEL32.dll";
    assert forall k :: 0 <= k < |AllowList| ==> AllowList[k][0] != 'k';
  }

  /** A file fails exactly when some line names a dependency that is on
      neither list. */
  lemma {:induction false} FileFailsIffRejectedLine(env: Env, filePath: string)
    ensures CheckFile(env, filePath).outcome.Fail? <==>
            exists k :: 0 <= k < |env.dumpbin(filePath)| && Rejects(Candidate(env.dumpbin(filePath)[k]), env.allowed)
  {
    var lines := env.dumpbin(filePath);
    var cs := Candidates(lines);
    PassesOfIff(cs, |lines|, env.allowed);
    assert forall k :: 0 <= k < |lines| ==> cs[k] == Candidate(lines[k]);
  }

  /** Without a file in the tree the run passes, with an empty log: the
      Windows checker has no no-files error. */
  lemma {:induction false} EmptyTreePasses(artifactsDir: string, root: Dir, dumpbin: string -> seq<string>)
    requires FilePaths(root, artifactsDir) == []
    ensures CheckFiles(Env(AllowList, dumpbin), FilePaths(root, artifactsDir), CheckFile) == Report([], Pass)
  {
  }

  /** Files whose dumpbin output names no dependency all pass, each logging
      only its "Checking" line. */
  lemma {:induction false} NoDependenciesPass(env: Env, paths: seq<string>)
    requires forall k :: 0 <= k < |paths| ==> forall j :: 0 <= j < |env.dumpbin(paths[k])| ==> Candidate(env.dumpbin(paths[k])[j]).None?
    ensures CheckFiles(env, paths, CheckFile).outcome == Pass
    ensures |CheckFiles(env, paths, CheckFile).log| == |paths|
  {
    if paths != [] {
      var lines := env.dumpbin(paths[0]);
      LogOfLength(Candidates(lines), |lines|, env.allowed);
      PassesOfIff(Candidates(lines), |lines|, env.allowed);
      assert forall k :: 0 <= k < |paths[1..]| ==> paths[1..][k] == paths[k + 1];
      NoDependenciesPass(env, paths[1..]);
    }
  }
}
