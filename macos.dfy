/** The macOS checker: every file of the artifacts tree (except Finder's
    .DS_Store files) is run through `dyld_info -dependents`, whose references
    must be shipped files, system libraries or frameworks, or @rpath files
    lying in the artifacts directory; then `file` reports the architectures
    the binary holds, and a universal build needs both x86_64 and arm64. */
module MacOS {
  import opened Text
  import opened Matching
  import opened Artifacts
  import opened Runner

  /** The reference on a line of dyld_info output is its last token. */
  function DyldReference(line: string): string {
    LastToken(line)
  }

  /** The reference on each line of dyld_info's output. */
  function References(lines: seq<string>): (refs: seq<string>)
    ensures |refs| == |lines|
  {
    seq(|lines|, k requires 0 <= k < |lines| => DyldReference(lines[k]))
  }

  /** A reference holding '[' opens a section (such as the `[arm64]`
      architecture header of a fat binary): the scan skips its line and the
      two lines after it. */
  predicate IsSection(libPath: string) {
    '[' in libPath
  }

  datatype Verdict = Accepted | LocalFile | Rejected

  /** Shipped by suffix, a system library, a system framework, or a file
      lying directly in the artifacts directory once "@rpath/" is removed. */
  function Classify(libPath: string, libSufix: seq<string>, root: Dir): Verdict {
    if HasSuffixIn(libPath, libSufix) || StartsWith(libPath, "/usr/lib/") || StartsWith(libPath, "/System/Library/Frameworks/") then Accepted
    else
      var libName := Replace(libPath, "@rpath/", "");
      if '/' !in libName && ExistsInRoot(root, libName) then LocalFile
      else Rejected
  }

  /** Both accepting branches log the same label. */
  function LogEntry(libPath: string, libSufix: seq<string>, root: Dir): string {
    if Classify(libPath, libSufix, root) == Rejected then "INVALID linkage: " + libPath
    else "VALID linkage: " + libPath
  }

  /** The indices of the lines the scan classifies, from index `i` on: a
      section line is passed over together with the two lines after it. */
  function Examined(refs: seq<string>, i: nat): (idx: seq<nat>)
    ensures forall k :: 0 <= k < |idx| ==> i <= idx[k] < |refs|
    ensures forall k, m :: 0 <= k < m < |idx| ==> idx[k] < idx[m]
    decreases |refs| - i
  {
    if i >= |refs| then []
    else if IsSection(refs[i]) then Examined(refs, i + 3)
    else [i] + Examined(refs, i + 1)
  }

  /** The elements of `xs` at the indices `idx`, in that order. */
  function Pick<T>(xs: seq<T>, idx: seq<nat>): (ys: seq<T>)
    requires forall k :: 0 <= k < |idx| ==> idx[k] < |xs|
    ensures |ys| == |idx|
    ensures forall k :: 0 <= k < |idx| ==> ys[k] == xs[idx[k]]
  {
    seq(|idx|, k requires 0 <= k < |idx| => xs[idx[k]])
  }

  lemma PickPrepend<T>(xs: seq<T>, idx: seq<nat>, i: nat)
    requires forall k :: 0 <= k < |idx| ==> idx[k] < |xs|
    requires i < |xs|
    ensures Pick(xs, [i] + idx) == [xs[i]] + Pick(xs, idx)
  {
    var whole := [i] + idx;
    assert forall k :: 0 <= k < |idx| ==> whole[k + 1] == idx[k];
  }

  /** The log entry of each reference. */
  function Entries(refs: seq<string>, libSufix: seq<string>, root: Dir): (es: seq<string>)
    ensures |es| == |refs|
  {
    seq(|refs|, j requires 0 <= j < |refs| => LogEntry(refs[j], libSufix, root))
  }

  /** The verdict on each reference. */
  function Verdicts(refs: seq<string>, libSufix: seq<string>, root: Dir): (vs: seq<Verdict>)
    ensures |vs| == |refs|
  {
    seq(|refs|, j requires 0 <= j < |refs| => Classify(refs[j], libSufix, root))
  }

  /** The lines the scan logs for the examined references (the first three
      lines dyld_info writes are its header and are never classified). */
  function DyldLog(refs: seq<string>, idx: seq<nat>, libSufix: seq<string>, root: Dir): (log: seq<string>)
    requires forall k :: 0 <= k < |idx| ==> idx[k] < |refs|
    ensures |log| == |idx|
    ensures forall k :: 0 <= k < |idx| ==> log[k] == LogEntry(refs[idx[k]], libSufix, root)
  {
    Pick(Entries(refs, libSufix, root), idx)
  }

  /** No examined reference is rejected. */
  predicate DyldPasses(refs: seq<string>, idx: seq<nat>, libSufix: seq<string>, root: Dir)
    requires forall k :: 0 <= k < |idx| ==> idx[k] < |refs|
  {
    Rejected !in Pick(Verdicts(refs, libSufix, root), idx)
  }

  /** Classifying one more line extends the log by that line's entry. */
  lemma {:induction false} DyldStep(refs: seq<string>, idx: seq<nat>, i: nat, libSufix: seq<string>, root: Dir)
    requires forall k :: 0 <= k < |idx| ==> idx[k] < |refs|
    requires i < |refs|
    ensures DyldLog(refs, [i] + idx, libSufix, root) == [LogEntry(refs[i], libSufix, root)] + DyldLog(refs, idx, libSufix, root)
    ensures DyldPasses(refs, [i] + idx, libSufix, root) <==> Classify(refs[i], libSufix, root) != Rejected && DyldPasses(refs, idx, libSufix, root)
  {
    PickPrepend(Entries(refs, libSufix, root), idx, i);
    PickPrepend(Verdicts(refs, libSufix, root), idx, i);
  }

  /** The scan from index `i` as the loop runs it: its log ... */
  function ScanLogFrom(refs: seq<string>, i: nat, libSufix: seq<string>, root: Dir): seq<string>
    decreases |refs| - i
  {
    if i >= |refs| then []
    else if IsSection(refs[i]) then ScanLogFrom(refs, i + 3, libSufix, root)
    else [LogEntry(refs[i], libSufix, root)] + ScanLogFrom(refs, i + 1, libSufix, root)
  }

  /** ... and whether every reference it classifies is accepted. */
  predicate ScanPassesFrom(refs: seq<string>, i: nat, libSufix: seq<string>, root: Dir)
    decreases |refs| - i
  {
    if i >= |refs| then true
    else if IsSection(refs[i]) then ScanPassesFrom(refs, i + 3, libSufix, root)
    else Classify(refs[i], libSufix, root) != Rejected && ScanPassesFrom(refs, i + 1, libSufix, root)
  }

  /** The loop's step-by-step scan classifies exactly the examined lines:
      its log has one entry per examined line, and it passes exactly when
      each of them is accepted. */
  lemma {:induction false} ScanIsOverExamined(refs: seq<string>, i: nat, libSufix: seq<string>, root: Dir)
    ensures ScanLogFrom(refs, i, libSufix, root) == DyldLog(refs, Examined(refs, i), libSufix, root)
    ensures ScanPassesFrom(refs, i, libSufix, root) <==> DyldPasses(refs, Examined(refs, i), libSufix, root)
    decreases |refs| - i
  {
    if i < |refs| {
      if IsSection(refs[i]) {
        ScanIsOverExamined(refs, i + 3, libSufix, root);
      } else {
        ScanIsOverExamined(refs, i + 1, libSufix, root);
        DyldStep(refs, Examined(refs, i + 1), i, libSufix, root);
      }
    }
  }

  /** The body of the scan for one line: its reference, whether it opens a
      section and, if not, the line it logs and whether it is accepted. */
  method ScanLine(outputLine: string, libSufix: seq<string>, root: Dir) returns (libPath: string, section: bool, line: string, accepted: bool)
    ensures libPath == DyldReference(outputLine)
    ensures section <==> IsSection(libPath)
    ensures !section ==> line == LogEntry(libPath, libSufix, root)
    ensures !section ==> (accepted <==> Classify(libPath, libSufix, root) != Rejected)
  {
    libPath := LastToken(outputLine);
    if '[' in libPath {
      return libPath, true, "", true;
    }
    section := false;
    var isValidLib := MatchesAnySuffix(libPath, libSufix);
    if isValidLib || StartsWith(libPath, "/usr/lib/") || StartsWith(libPath, "/System/Library/Frameworks/") {
      line, accepted := "VALID linkage: " + libPath, true;
    } else {
      var libName := Replace(libPath, "@rpath/", "");
      if '/' !in libName && ExistsInRoot(root, libName) {
        line, accepted := "VALID linkage: " + libPath, true;
      } else {
        line, accepted := "INVALID linkage: " + libPath, false;
      }
    }
  }

  /** The loop over dyld_info's output: it starts after the header, skips
      each section line and the two lines after it, and classifies and logs
      every other line. */
  method ScanDyldOutput(lines: seq<string>, libSufix: seq<string>, root: Dir) returns (passedTests: bool, log: seq<string>)
    ensures passedTests <==> DyldPasses(References(lines), Examined(References(lines), 3), libSufix, root)
    ensures log == DyldLog(References(lines), Examined(References(lines), 3), libSufix, root)
  {
    ghost var refs := References(lines);
    passedTests := true;
    log := [];
    var i := 3;
    while i < |lines|
      invariant ScanLogFrom(refs, 3, libSufix, root) == log + ScanLogFrom(refs, i, libSufix, root)
      invariant ScanPassesFrom(refs, 3, libSufix, root) <==> passedTests && ScanPassesFrom(refs, i, libSufix, root)
      decreases |lines| - i
    {
      var libPath, section, line, accepted := ScanLine(lines[i], libSufix, root);
      assert refs[i] == libPath;
      if section {
        i := i + 2;
        i := i + 1;
        continue;
      }
      if !accepted {
        passedTests := false;
      }
      assert log + [line] + ScanLogFrom(refs, i + 1, libSufix, root) == log + ([line] + ScanLogFrom(refs, i + 1, libSufix, root));
      log := log + [line];
      i := i + 1;
    }
    assert log + [] == log;
    ScanIsOverExamined(refs, 3, libSufix, root);
  }

  /** `x86_64` when some line of `file`'s output mentions it. */
  predicate HasX86(lines: seq<string>) {
    exists k :: 0 <= k < |lines| && Contains(lines[k], "x86_64")
  }

  /** `arm64` only from a line that mentions arm64 and not x86_64: the test
      for arm64 is the else branch of the test for x86_64. */
  predicate HasArm(lines: seq<string>) {
    exists k :: 0 <= k < |lines| && !Contains(lines[k], "x86_64") && Contains(lines[k], "arm64")
  }

  /** The architecture loop over the output of `file`. */
  method ScanArchitectures(lines: seq<string>) returns (x86_64: bool, arm64: bool)
    ensures x86_64 <==> HasX86(lines)
    ensures arm64 <==> HasArm(lines)
  {
    x86_64 := false;
    arm64 := false;
    for i := 0 to |lines|
      invariant x86_64 <==> HasX86(lines[..i])
      invariant arm64 <==> HasArm(lines[..i])
    {
      var architecture := lines[i];
      if Contains(architecture, "x86_64") {
        x86_64 := true;
      } else if Contains(architecture, "arm64") {
        arm64 := true;
      }
      assert forall k :: 0 <= k < i ==> lines[..i + 1][k] == lines[..i][k];
      assert lines[..i + 1][i] == lines[i];
    }
    assert lines[..|lines|] == lines;
  }

  /** The ARCHITECTURE lines, x86_64 first. */
  function ArchitectureLog(x86_64: bool, arm64: bool): (log: seq<string>)
    ensures |log| == (if x86_64 then 1 else 0) + (if arm64 then 1 else 0)
    ensures "ARCHITECTURE: x86_64" in log <==> x86_64
    ensures "ARCHITECTURE: arm64" in log <==> arm64
  {
    (if x86_64 then ["ARCHITECTURE: x86_64"] else []) + (if arm64 then ["ARCHITECTURE: arm64"] else [])
  }

  /** The inputs of CheckDir: the tree, the collected names, whether a
      universal binary is expected, and the outputs of dyld_info and `file`
      for each path. */
  datatype Env = Env(root: Dir, libSufix: seq<string>, universal: bool,
                     dyld: string -> seq<string>, file: string -> seq<string>)

  /** One file: skipped when its path mentions .DS_Store; otherwise linkage
      is checked first, then the architectures. */
  function CheckFile(env: Env, filePath: string): Report {
    if Contains(filePath, ".DS_Store") then Report([], Pass)
    else
      var refs := References(env.dyld(filePath));
      var idx := Examined(refs, 3);
      var linkLog := ["Checking: " + filePath] + DyldLog(refs, idx, env.libSufix, env.root);
      if !DyldPasses(refs, idx, env.libSufix, env.root) then Report(linkLog, Fail(InvalidLinkageMessage))
      else
        var archs := env.file(filePath);
        var archLog := linkLog + ArchitectureLog(HasX86(archs), HasArm(archs));
        if env.universal && !(HasArm(archs) && HasX86(archs)) then
          Report(archLog + ["INVALID universal binary"], Fail(NotUniversalMessage))
        else Report(archLog + [""], Pass)
  }

  /** The part of CheckDir's loop body for one file. */
  method CheckOneFile(env: Env, filePath: string) returns (r: Report)
    ensures r == CheckFile(env, filePath)
  {
    if Contains(filePath, ".DS_Store") {
      return Report([], Pass);
    }
    var passedTests, lineLog := ScanDyldOutput(env.dyld(filePath), env.libSufix, env.root);
    var log := ["Checking: " + filePath] + lineLog;
    if !passedTests {
      return Report(log, Fail(InvalidLinkageMessage));
    }
    var x86_64, arm64 := ScanArchitectures(env.file(filePath));
    ghost var linkLog := log;
    if x86_64 {
      log := log + ["ARCHITECTURE: x86_64"];
    }
    if arm64 {
      log := log + ["ARCHITECTURE: arm64"];
    }
    assert log == linkLog + ArchitectureLog(x86_64, arm64);
    if env.universal && !(arm64 && x86_64) {
      return Report(log + ["INVALID universal binary"], Fail(NotUniversalMessage));
    }
    r := Report(log + [""], Pass);
  }

  /** CheckDir: sub-directories first, then the directory's own files; the
      first failing file ends the walk. */
  method CheckDir(env: Env, d: Dir, path: string) returns (report: Report)
    ensures report == CheckFiles(env, FilePaths(d, path), CheckFile)
    decreases d
  {
    var log: seq<string> := [];
    for k := 0 to |d.subdirs|
      invariant CheckFiles(env, SubdirFilePaths(d, path, k), CheckFile) == Report(log, Pass)
    {
      var sub := d.subdirs[k];
      var r := CheckDir(env, sub, Combine(path, sub.name));
      SubdirStep(env, d, path, k, log, r, CheckFile);
      if r.outcome.Fail? {
        return Report(log + r.log, r.outcome);
      }
      log := log + r.log;
    }
    OwnFilesStart(d, path);
    for k := 0 to |d.files|
      invariant CheckFiles(env, OwnFilesPrefix(d, path, k), CheckFile) == Report(log, Pass)
    {
      var r := CheckOneFile(env, Combine(path, d.files[k]));
      FileStep(env, d, path, k, log, r, CheckFile);
      if r.outcome.Fail? {
        return Report(log + r.log, r.outcome);
      }
      log := log + r.log;
    }
    OwnFilesEnd(d, path);
    report := Report(log, Pass);
  }

  /** What Run reports: no file anywhere is an error before anything is
      checked; otherwise the walk's report. */
  function RunResult(artifactsDir: string, root: Dir, universal: bool,
                     dyld: string -> seq<string>, file: string -> seq<string>): Report {
    var libSufix := FileNames(root);
    if |libSufix| == 0 then Report([], Fail(NoFilesMessage))
    else CheckFiles(Env(root, libSufix, universal, dyld, file), FilePaths(root, artifactsDir), CheckFile)
  }

  method Run(artifactsDir: string, root: Dir, universal: bool,
             dyld: string -> seq<string>, file: string -> seq<string>) returns (report: Report)
    requires WellFormed(root)
    ensures report == RunResult(artifactsDir, root, universal, dyld, file)
  {
    var libSufix := new NameList();
    CollectFileNames(root, artifactsDir, libSufix);
    assert libSufix.items == FileNames(root);
    if |libSufix.items| == 0 {
      return Report([], Fail(NoFilesMessage));
    }
    report := CheckDir(Env(root, libSufix.items, universal, dyld, file), root, artifactsDir);
  }

  // ---------------------------------------------------------- Properties

  /** The three header lines of dyld_info are never classified, and the two
      lines after a section line the scan reaches are never classified
      either, whatever references they hold. */
  lemma {:induction false} SectionHidesNextTwoLines(refs: seq<string>, i: nat)
    requires i < |refs| && IsSection(refs[i])
    ensures i !in Examined(refs, i) && i + 1 !in Examined(refs, i) && i + 2 !in Examined(refs, i)
    ensures forall k :: 0 <= k < |Examined(refs, 3)| ==> Examined(refs, 3)[k] >= 3
  {
  }

  /** Every other line from the header on is classified as long as no
      section line occurs: without sections the scan visits lines 3.. in
      order. */
  lemma {:induction false} NoSectionsExamineAll(refs: seq<string>, i: nat)
    requires forall k :: i <= k < |refs| ==> !IsSection(refs[k])
    ensures |Examined(refs, i)| == if i < |refs| then |refs| - i else 0
    ensures forall k :: 0 <= k < |Examined(refs, i)| ==> Examined(refs, i)[k] == i + k
    decreases |refs| - i
  {
    if i < |refs| {
      assert Examined(refs, i) == [i] + Examined(refs, i + 1);
      NoSectionsExamineAll(refs, i + 1);
    }
  }

  /** System libraries and frameworks are accepted whatever the artifacts
      hold. */
  lemma {:induction false} SystemPathsAccepted(libPath: string, libSufix: seq<string>, root: Dir)
    requires StartsWith(libPath, "/usr/lib/") || StartsWith(libPath, "/System/Library/Frameworks/")
    ensures Classify(libPath, libSufix, root) == Accepted
  {
  }

  /** An @rpath reference to any file shipped anywhere in the tree is
      accepted by the suffix test, before the artifacts directory is
      consulted. */
  lemma {:induction false} RpathToShippedFileAccepted(name: string, root: Dir)
    requires name in FileNames(root)
    ensures Classify("@rpath/" + name, FileNames(root), root) == Accepted
  {
    PathEndingInNameMatches("@rpath/", name, FileNames(root));
  }

  /** A reference that still holds a '/' once "@rpath/" is removed is only
      accepted by the allow-lists. */
  lemma {:induction false} NestedPathNeverLocal(libPath: string, libSufix: seq<string>, root: Dir)
    requires '/' in Replace(libPath, "@rpath/", "")
    ensures Classify(libPath, libSufix, root) != LocalFile
  {
  }

  /** Without a universal build the architecture check never fails a file;
      the only failure is rejected linkage. */
  lemma {:induction false} NonUniversalFailsOnlyOnLinkage(env: Env, filePath: string)
    requires !env.universal
    ensures CheckFile(env, filePath).outcome.Fail? ==> CheckFile(env, filePath).outcome == Fail(InvalidLinkageMessage)
    ensures CheckFile(env, filePath).outcome.Fail? <==>
            !Contains(filePath, ".DS_Store") && !DyldPasses(References(env.dyld(filePath)), Examined(References(env.dyld(filePath)), 3), env.libSufix, env.root)
  {
  }

  /** A universal build passes a file (other than .DS_Store) only when
      `file` reports a line with x86_64 and another line with arm64 and not
      x86_64. */
  lemma {:induction false} UniversalNeedsBothArchitectures(env: Env, filePath: string)
    requires env.universal && !Contains(filePath, ".DS_Store")
    ensures CheckFile(env, filePath).outcome == Pass <==>
            DyldPasses(References(env.dyld(filePath)), Examined(References(env.dyld(filePath)), 3), env.libSufix, env.root) &&
            HasX86(env.file(filePath)) && HasArm(env.file(filePath))
    ensures CheckFile(env, filePath).outcome == Pass ==>
            "ARCHITECTURE: x86_64" in CheckFile(env, filePath).log && "ARCHITECTURE: arm64" in CheckFile(env, filePath).log
  {
    var r := CheckFile(env, filePath);
    if r.outcome == Pass {
      var refs := References(env.dyld(filePath));
      var archs := env.file(filePath);
      var linkLog := ["Checking: " + filePath] + DyldLog(refs, Examined(refs, 3), env.libSufix, env.root);
      assert r.log == linkLog + ArchitectureLog(HasX86(archs), HasArm(archs)) + [""];
    }
  }

  /** When every line `file` prints mentions x86_64 (as every line does
      when the file's own path mentions it, since `file` starts each line
      with the path), arm64 is never seen, and a universal build fails. */
  lemma {:induction false} X86OnEveryLineHidesArm(lines: seq<string>)
    requires forall k :: 0 <= k < |lines| ==> Contains(lines[k], "x86_64")
    ensures !HasArm(lines)
  {
  }

  lemma {:induction false} PathMentioningX86NeverUniversal(env: Env, filePath: string)
    requires env.universal && !Contains(filePath, ".DS_Store") && Contains(filePath, "x86_64")
    requires forall k :: 0 <= k < |env.file(filePath)| ==> StartsWith(env.file(filePath)[k], filePath)
    ensures CheckFile(env, filePath).outcome.Fail?
  {
    var archs := env.file(filePath);
    forall k | 0 <= k < |archs| ensures Contains(archs[k], "x86_64") {
      var line := archs[k];
      assert line == filePath + line[|filePath|..];
      ContainsAppend(filePath, line[|filePath|..], "x86_64");
    }
    X86OnEveryLineHidesArm(archs);
  }

  /** Finder's .DS_Store files are skipped without a log line; a tree that
      holds nothing else passes with an empty log, although it is not empty. */
  lemma {:induction false} SkippedFilesLogNothing(env: Env, paths: seq<string>)
    requires forall k :: 0 <= k < |paths| ==> Contains(paths[k], ".DS_Store")
    ensures CheckFiles(env, paths, CheckFile) == Report([], Pass)
  {
    if paths != [] {
      SkippedFilesLogNothing(env, paths[1..]);
    }
  }

  lemma {:induction false} OnlyDsStorePasses(artifactsDir: string, root: Dir, universal: bool,
                                              dyld: string -> seq<string>, file: string -> seq<string>)
    requires FilePaths(root, artifactsDir) != []
    requires forall k :: 0 <= k < |FilePaths(root, artifactsDir)| ==> Contains(FilePaths(root, artifactsDir)[k], ".DS_Store")
    ensures RunResult(artifactsDir, root, universal, dyld, file) == Report([], Pass)
  {
    NamesMatchPaths(root, artifactsDir);
    SkippedFilesLogNothing(Env(root, FileNames(root), universal, dyld, file), FilePaths(root, artifactsDir));
  }

  /** The no-files error is raised exactly for a tree without files, and
      then before anything is logged. */
  lemma {:induction false} NoFilesIffEmptyTree(artifactsDir: string, root: Dir, universal: bool,
                                               dyld: string -> seq<string>, file: string -> seq<string>)
    ensures RunResult(artifactsDir, root, universal, dyld, file).outcome == Fail(NoFilesMessage) <==> FilePaths(root, artifactsDir) == []
    ensures FilePaths(root, artifactsDir) == [] ==> RunResult(artifactsDir, root, universal, dyld, file).log == []
  {
    NamesMatchPaths(root, artifactsDir);
    var env := Env(root, FileNames(root), universal, dyld, file);
    var paths := FilePaths(root, artifactsDir);
    if paths != [] && CheckFiles(env, paths, CheckFile).outcome.Fail? {
      FailureComesFromAFile(env, paths, CheckFile);
    }
  }
}
