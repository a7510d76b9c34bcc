# MonoGame tool build scripts: linkage tests and packaging, in Dafny

The MonoGame tool build scripts build a native command-line tool on
Windows, Linux and macOS, test the binaries it produced and pack them into a
.NET tool. This project models two parts of those scripts and proves
properties of the model.

**The linkage tests** ("Test Windows", "Test Linux", "Test macOS"):

- Each test walks the artifacts directory depth first, sub-directories
  before a directory's own files.
- It runs the platform's dependency lister on each file (`dumpbin
  /dependents`, `ldd`, `dyld_info -dependents`). It classifies every
  reference the lister prints and logs a VALID or INVALID line for it.
- The first file with an invalid reference aborts the run with "Invalid
  library linkage detected!".
- On macOS the test also runs `file` to find the architectures, and for a
  universal build it requires both x86_64 and arm64.

**The packaging tasks:**

- "Publish Tool" uploads (or, outside GitHub Actions, moves) the artifacts
  under the name `artifacts-{rid}`.
- "Package" and "Publish Package" download the artifacts of every required
  rid, skipping folders that already exist.
- Both then fill a project template by replacing its `{Placeholder}`s one
  after the other.

Modules, one file each:

| module | file | what it holds |
|---|---|---|
| `Wrappers` | wrappers.dfy | `Option` |
| `Text` | text.dfy | the .NET string operations the tasks use: `Trim`, `Split(char)`, `Join`, `Replace`, `StartsWith`, `EndsWith`, `Contains`, `ToLower`, `Path.GetExtension`, `Path.GetFileName` (ordinal, with ASCII white space and '/' as the separator) |
| `Matching` | matching.dfy | the "any prefix" and "any suffix" loops with `break` |
| `Artifacts` | artifacts.dfy | the artifacts tree (`Dir`), the walk order of the checkers (`FilePaths`), and `GetValidSufix` as a method that fills a mutable name list |
| `Runner` | runner.dfy | `Report(log, outcome)` and `CheckFiles`, the per-file loop that stops at the first file that throws |
| `Linux`, `MacOS`, `Windows` | linux.dfy, macos.dfy, windows.dfy | each checker: its allow-lists, the loop over the lister's output as a method proved against a specification function, `CheckDir` as a method over the tree, `Run`, and lemmas about what passes and what fails |
| `Rids` | rids.dfy | the rid Publish Tool computes, the rids the packaging tasks require, and the rid Package uses locally |
| `Templates` | templates.dfy | licence file names, the `Replace` chains of both packaging tasks, and the `<Content>` items of Publish Package |
| `Workspace` | workspace.dfy | the download loop as a class over the set of existing directories, and Publish Tool's local move as a class over the artifacts directory |

How the model represents what the tasks see and do:

- A thrown exception becomes a `Report` whose outcome is
  `Fail(message)`. Its log keeps every line written before the throw.
- The output of an external tool is a function from a file path to that
  tool's output lines: `ldd`, `dyld_info`, `file` and `dumpbin` run through
  `vsdevcmd.bat`.
- `File.Exists(Path.Combine(ArtifactsDir, name))` for a name without '/'
  is modelled as `name` being, character for character, among the files
  directly in the artifacts directory. This is the model's choice: on a
  case-insensitive file system `File.Exists` also accepts a name that
  differs only in case.
- The host platform and processor architecture are parameters.

## Model

| member | source | states |
|---|---|---|
| Text.Trim | Tasks/TestLinuxTask.cs:71 | the trimmed text is no longer than the input, and neither its first nor its last character is white space |
| Text.TrimOfPadded | Tasks/TestWindowsTask.cs:78 | trimming a word padded by white space on both sides gives the word back |
| Text.Split | Tasks/TestLinuxTask.cs:71 | a split has at least one piece, and no piece holds the separator |
| Text.JoinSplit | Tasks/TestLinuxTask.cs:71 | joining the pieces of a split with the separator gives the string back |
| Text.SplitJoin | Tasks/PublishPackageTask.cs:70 | splitting a join of separator-free pieces gives the pieces back |
| Text.FirstTokenOfLine | Tasks/TestLinuxTask.cs:71 | `Trim().Split(' ')[0]` of an indented line is its first word |
| Text.LastTokenOfLine | Tasks/TestMacOSTask.cs:60 | `Trim().Split(' ')[^1]` of a line ending in a word and white space is that word |
| Text.ReplaceAbsent | Tasks/PackageTask.cs:136-143 | `Replace` leaves a text without the pattern unchanged |
| Text.Replace | Tasks/PackageTask.cs:137 | defines ordinal `String.Replace`: occurrences found left to right without overlap; `Text.ReplaceAbsent`, `Text.ReplaceAfterPlain` and `Templates.ReplaceOne` state what it does |
| Text.ToLowerKeepsOthers | Tasks/PackageTask.cs:138 | lower-casing keeps a character that is not a letter exactly when the input has it |
| Text.GetExtension | Tasks/PackageTask.cs:127 | the extension is empty or is a suffix of the path made of '.' and at least one more character, with no further '.' or '/' |
| Text.ExtensionIff | Tasks/PackageTask.cs:127-132 | for an extension such as ".txt" or ".md", a path has it exactly when the path ends with it |
| Text.FileNameOfCombined | Tasks/TestLinuxTask.cs:44 | the file name of `dir/name` is `name` |
| Text.GetFileName | Tasks/TestLinuxTask.cs:44 | defines `Path.GetFileName` as the text after the last '/'; `Text.FileNameOfCombined` states its value on the paths the walk builds |
| Text.Contains | Tasks/TestMacOSTask.cs:44 | defines ordinal `String.Contains`; `Text.ContainsAppend` states that an occurrence survives appending |
| Artifacts.FilePaths | Tasks/TestLinuxTask.cs:48-56 | defines the walk order of `CheckDir`: each sub-directory's files first, then the directory's own; `Linux.CheckDir`, `MacOS.CheckDir` and `Windows.CheckDir` are proved to visit exactly these paths |
| Artifacts.FileNames | Tasks/TestLinuxTask.cs:35-46 | defines the names `GetValidSufix` collects; `Artifacts.CollectFileNames` is proved to collect exactly these and `Artifacts.FileNamesAreBaseNames` ties them to the walk's paths |
| Matching.MatchesAnyPrefix | Tasks/TestLinuxTask.cs:74-81 | the loop reports a match exactly when some allow-listed prefix starts the reference |
| Matching.MatchesAnySuffix | Tasks/TestLinuxTask.cs:82-89 | the loop reports a match exactly when some collected name ends the reference |
| Matching.PathEndingInNameMatches | Tasks/TestMacOSTask.cs:68-75 | any reference ending in a collected name matches, whatever directory precedes it |
| Artifacts.NameList.Add | Tasks/TestLinuxTask.cs:44 | the list grows by exactly that name at its end |
| Artifacts.CollectFileNames | Tasks/TestLinuxTask.cs:35-46 | the list grows by the base names of the tree's files, sub-directories first, in walk order |
| Artifacts.FileNamesAreBaseNames | Tasks/TestLinuxTask.cs:35-55 | the collected names are the file names of the paths `CheckDir` visits, in the same order |
| Artifacts.NamesMatchPaths | Tasks/TestLinuxTask.cs:27-32 | as many names are collected as there are files to check, so "no names" means "no files" |
| Artifacts.RootFilesCollected | Tasks/TestLinuxTask.cs:97-98 | a file directly in the artifacts directory is among the collected names |
| Runner.CheckFiles | Tasks/TestLinuxTask.cs:110-113 | defines the per-file throw: files are checked in order and the first failing one ends the run with its log; the `Runner` lemmas state its laws |
| Runner.CheckFilesAppend | Tasks/TestLinuxTask.cs:50-56 | checking `a + b` is checking `a`, then `b` only if `a` passed, with the logs concatenated |
| Runner.CheckFilesFailedPrefix | Tasks/TestLinuxTask.cs:110-113 | once a prefix of the files fails, the files after it change neither the outcome nor the log |
| Runner.CheckFilesPassIff | Tasks/TestLinuxTask.cs:55-116 | a run of files passes exactly when every file passes, and its log is then every file's log in order |
| Runner.CheckFilesStopsAtFirstFailure | Tasks/TestLinuxTask.cs:110-113 | the outcome is that of the first failing file, and the log ends with that file's log |
| Runner.FailureComesFromAFile | Tasks/TestWindowsTask.cs:93-96 | a failing run fails with the outcome of one of its files |
| Linux.Classify | Tasks/TestLinuxTask.cs:73-107 | defines the three branches: an allow-listed prefix or collected suffix, then a slash-free name lying in the artifacts directory, else rejected; `Linux.PrefixAlwaysValid`, `Linux.ShippedNameSuffixValid`, `Linux.SlashNeverLocal` and `Linux.LocalBranchUnreachable` state its behaviour |
| Linux.CheckFile | Tasks/TestLinuxTask.cs:57-115 | defines one file's report: "Checking", one line per ldd line, then the throw or a blank line; `Linux.FileFailsIffRejectedLine` states when it fails and how long its log is |
| Linux.ScanLine | Tasks/TestLinuxTask.cs:71-107 | the body logs the line of the branch the reference takes, and accepts exactly when the reference is not rejected |
| Linux.ScanLddOutput | Tasks/TestLinuxTask.cs:68-108 | `passedTests` holds exactly when every line of ldd's output is accepted, and the log has one entry per line, in order |
| Linux.CheckDir | Tasks/TestLinuxTask.cs:48-117 | the report is that of checking the tree's files in walk order, stopping at the first file that fails |
| Linux.Run | Tasks/TestLinuxTask.cs:22-33 | the report is the no-files error for an empty tree, otherwise `CheckDir` with the names collected from the whole tree |
| Linux.NoFilesIffEmptyTree | Tasks/TestLinuxTask.cs:27-30 | the no-files error is raised exactly when the tree has no file, and then nothing is logged |
| Linux.RunPassesIff | Tasks/TestLinuxTask.cs:22-117 | a run passes exactly when the tree has a file and every ldd line of every file is accepted |
| Linux.PrefixAlwaysValid | Tasks/TestLinuxTask.cs:74-81 | a reference starting with an allow-listed prefix is accepted, whatever the artifacts hold |
| Linux.ShippedNameSuffixValid | Tasks/TestLinuxTask.cs:82-89 | a reference ending in the name of any file in the tree is accepted |
| Linux.SlashNeverLocal | Tasks/TestLinuxTask.cs:97-105 | a reference holding '/' never takes the local branch: it is rejected exactly when it matches no prefix and no suffix |
| Linux.LocalBranchUnreachable | Tasks/TestLinuxTask.cs:97-101 | with the names collected from the tree, the local "VALID linkage" branch is never taken |
| Linux.FileFailsIffRejectedLine | Tasks/TestLinuxTask.cs:110-115 | a file fails, with "Invalid library linkage detected!", exactly when one of its ldd lines is rejected; it logs one line for "Checking", one per ldd line, and a blank line when it passes |
| Linux.LddLineClassifiesName | Tasks/TestLinuxTask.cs:71 | for an indented ldd line "name => path (address)", the verdict is the verdict on `name` |
| Linux.LibcAllowListed | Tasks/TestLinuxTask.cs:11 | "libc.so.6" is accepted whatever the artifacts hold |
| MacOS.Classify | Tasks/TestMacOSTask.cs:67-94 | defines the branches: collected suffix or system path, then a slash-free name in the artifacts directory once "@rpath/" is removed, else rejected; `MacOS.SystemPathsAccepted`, `MacOS.RpathToShippedFileAccepted` and `MacOS.NestedPathNeverLocal` state its behaviour |
| MacOS.CheckFile | Tasks/TestMacOSTask.cs:42-143 | defines one file's report: the .DS_Store skip, the linkage throw, the ARCHITECTURE lines and the universal throw; `MacOS.NonUniversalFailsOnlyOnLinkage` and `MacOS.UniversalNeedsBothArchitectures` state when it fails |
| MacOS.Examined | Tasks/TestMacOSTask.cs:58-65 | the indices of the lines the loop classifies are increasing and lie between the start and the end of the output |
| MacOS.ScanIsOverExamined | Tasks/TestMacOSTask.cs:58-95 | the loop's step-by-step log and verdict are those of the examined lines |
| MacOS.ScanLine | Tasks/TestMacOSTask.cs:60-94 | the reference is the last token of the line; a '[' marks a section; otherwise the body logs the line's entry and accepts exactly when the reference is not rejected |
| MacOS.ScanDyldOutput | Tasks/TestMacOSTask.cs:56-95 | `passedTests` holds exactly when no examined reference is rejected, and the log has one entry per examined reference, in order |
| MacOS.ScanArchitectures | Tasks/TestMacOSTask.cs:112-124 | `x86_64` is set exactly when a line mentions x86_64; `arm64` exactly when a line mentions arm64 without x86_64 |
| MacOS.ArchitectureLog | Tasks/TestMacOSTask.cs:126-134 | one ARCHITECTURE line per flag that is set, each exactly when its flag is set |
| MacOS.CheckOneFile | Tasks/TestMacOSTask.cs:44-142 | the loop body for one file computes the per-file report |
| MacOS.CheckDir | Tasks/TestMacOSTask.cs:35-144 | the report is that of checking the tree's files in walk order, stopping at the first file that fails |
| MacOS.Run | Tasks/TestMacOSTask.cs:9-20 | the report is the no-files error for an empty tree, otherwise `CheckDir` with the collected names |
| MacOS.SectionHidesNextTwoLines | Tasks/TestMacOSTask.cs:58-65 | the header lines and a section line with the two lines after it are never classified |
| MacOS.NoSectionsExamineAll | Tasks/TestMacOSTask.cs:58 | without a section line, every line from the start on is classified, in order |
| MacOS.SystemPathsAccepted | Tasks/TestMacOSTask.cs:77-80 | references under /usr/lib/ and /System/Library/Frameworks/ are accepted |
| MacOS.RpathToShippedFileAccepted | Tasks/TestMacOSTask.cs:67-88 | "@rpath/" followed by the name of any file in the tree is accepted |
| MacOS.NestedPathNeverLocal | Tasks/TestMacOSTask.cs:83-85 | a reference that still holds '/' once "@rpath/" is removed never takes the local branch |
| MacOS.NonUniversalFailsOnlyOnLinkage | Tasks/TestMacOSTask.cs:97-142 | without a universal build, a file fails only with the linkage error, and exactly when it is not .DS_Store and an examined reference is rejected |
| MacOS.UniversalNeedsBothArchitectures | Tasks/TestMacOSTask.cs:136-140 | for a universal build, a file passes exactly when its linkage passes and both architecture flags are set, and it then logs both ARCHITECTURE lines |
| MacOS.X86OnEveryLineHidesArm | Tasks/TestMacOSTask.cs:120-123 | when every line mentions x86_64, the arm64 flag is never set |
| MacOS.PathMentioningX86NeverUniversal | Tasks/TestMacOSTask.cs:103-140 | for a universal build, a file whose path mentions x86_64 fails when every line `file` prints starts with the path |
| MacOS.SkippedFilesLogNothing | Tasks/TestMacOSTask.cs:44 | files whose paths mention .DS_Store pass and log nothing |
| MacOS.OnlyDsStorePasses | Tasks/TestMacOSTask.cs:14-44 | a tree whose only files are .DS_Store files passes the run with an empty log |
| MacOS.NoFilesIffEmptyTree | Tasks/TestMacOSTask.cs:14-17 | the no-files error is raised exactly when the tree has no file, and then nothing is logged |
| Windows.CheckFile | Tasks/TestWindowsTask.cs:64-96 | defines one file's report: "Checking", the dependency entries, then the throw, with no blank line; `Windows.FileFailsIffRejectedLine` states when it fails |
| Windows.Candidate | Tasks/TestWindowsTask.cs:78-80 | a named dependency ends in ".dll", holds no space and does not start with white space |
| Windows.EntryLog | Tasks/TestWindowsTask.cs:82-90 | a line logs at most one entry, and one exactly when it names a dependency |
| Windows.ScanDumpbinOutput | Tasks/TestWindowsTask.cs:75-91 | the loop, with the trimming, the `continue` and the allow-list test in its body: `passedTests` holds exactly when no line names a dependency on neither list, and the log is the lines' VALID/INVALID entries in order |
| Windows.CheckDir | Tasks/TestWindowsTask.cs:53-98 | the report is that of checking the tree's files in walk order, stopping at the first file that fails |
| Windows.Run | Tasks/TestWindowsTask.cs:46-51 | the report is `CheckDir` over the artifacts tree against both allow-lists, with no check that the tree has a file |
| Windows.PassesOfIff | Tasks/TestWindowsTask.cs:82-90 | the loop's flag over the first `n` lines holds exactly when none of them is rejected |
| Windows.LogOfLength | Tasks/TestWindowsTask.cs:79-90 | the log has at most one entry per line, and is empty exactly when no line names a dependency |
| Windows.IndentedDllLine | Tasks/TestWindowsTask.cs:78-82 | an indented line holding one ".dll" name names that dependency, and it is rejected exactly when it is on neither list |
| Windows.NonDependencyLinesIgnored | Tasks/TestWindowsTask.cs:79-80 | a line whose trimmed text holds a space or does not end in ".dll" is skipped and logs nothing |
| Windows.UpperCaseExtensionIgnored | Tasks/TestWindowsTask.cs:79 | a dependency written with ".DLL" is not examined |
| Windows.AllowListIsCaseSensitive | Tasks/TestWindowsTask.cs:10 | "KERNEL32.dll" is allowed but "kernel32.dll" is not |
| Windows.FileFailsIffRejectedLine | Tasks/TestWindowsTask.cs:93-96 | a file fails exactly when one of its dumpbin lines names a dependency on neither list |
| Windows.EmptyTreePasses | Tasks/TestWindowsTask.cs:60-62 | a tree without files passes with an empty log |
| Windows.NoDependenciesPass | Tasks/TestWindowsTask.cs:62-97 | files whose output names no dependency pass, each logging only its "Checking" line |
| Rids.RequiredRids | Tasks/PackageTask.cs:20-22 | three rids for a universal build, four otherwise; `Rids.RequiredRidsDistinct` states that none repeats |
| Rids.ArtifactName | Tasks/PublishToolTask.cs:28 | the name is "artifacts-" followed by the rid, which can be read back from it, so distinct rids give distinct names |
| Rids.PublishRid | Tasks/PublishToolTask.cs:11-26 | the published rid starts with "windows", "osx" or, on any other platform, "linux" |
| Rids.LocalRid | Tasks/PackageTask.cs:36-53 | the local rid is empty exactly on a platform other than Windows, Linux and macOS |
| Rids.RequiredRidsDistinct | Tasks/PublishPackageTask.cs:27-39 | no rid is required twice |
| Rids.PublishRidRequiredIff | Tasks/PublishToolTask.cs:11-26 | the published rid is required exactly on macOS or on a non-Arm processor |
| Rids.EveryRequiredRidIsPublished | Tasks/PackageTask.cs:20-22 | every required rid is the published rid of some platform and architecture |
| Rids.LocalRidIsRequired | Tasks/PackageTask.cs:36-53 | the local rid is required exactly on Windows, Linux and macOS |
| Rids.LocalRidMatchesPublishRid | Tasks/PackageTask.cs:36-53 | the local rid is the published rid exactly on macOS and on non-Arm Windows and Linux |
| Rids.ArtifactNamesAgree | Tasks/PublishToolTask.cs:28-31 | the artifact names the packaging tasks download are exactly those uploaded from macOS and from non-Arm Windows and Linux |
| Templates.LicenseNameByExtension | Tasks/PackageTask.cs:127-132 | Package's licence name is "LICENSE.txt", "LICENSE.md" or "LICENSE" |
| Templates.LicenceNameBySuffix | Tasks/PublishPackageTask.cs:61-66 | Publish Package's licence name is "LICENSE.txt", "LICENSE.md" or "LICENSE" |
| Templates.LicenceNamesAgree | Tasks/PublishPackageTask.cs:61-66 | both tasks choose the same licence name for every path: ".txt" endings give "LICENSE.txt", and ".md" endings give "LICENSE.md" |
| Templates.PackageProject | Tasks/PackageTask.cs:136-143 | defines Package's seven `Replace` calls in source order; `Templates.PackageProjectIsReplaceEach` and `Templates.PackageProjectInstantiates` state what they produce |
| Templates.ReplaceOne | Tasks/PackageTask.cs:137 | replacing one placeholder in a well-formed template substitutes the value for each hole of that name |
| Templates.ReplaceEachInstantiates | Tasks/PackageTask.cs:136-143 | replacing brace-free placeholders in turn with brace-free values gives the template with each hole filled by its first binding |
| Templates.NoPlaceholderSurvives | Tasks/PackageTask.cs:136-143 | when every hole is bound to a brace-free value, no '{' remains |
| Templates.PackageProjectIsReplaceEach | Tasks/PackageTask.cs:136-143 | Package's chain replaces its seven placeholders in order |
| Templates.PackageProjectInstantiates | Tasks/PackageTask.cs:133-143 | for a template whose literal text holds no '{' and settings without braces, Package's text is the template filled in; with every hole one of its placeholders, no '{' remains |
| Templates.ContentLine | Tasks/PublishPackageTask.cs:69 | defines the `<Content>` item of one file under `runtimes/{rid}/native`; `Templates.ContentLineBraceFree` states it adds no brace |
| Templates.ToolsToInclude | Tasks/PublishPackageTask.cs:68-69 | defines the query: for each required rid in order, one item per listed file; `Templates.ToolsToIncludeAppend` and `Templates.ToolsToIncludeIff` state its order and contents |
| Templates.ToolsToIncludeAppend | Tasks/PublishPackageTask.cs:68-69 | the items come rid by rid, those of earlier rids first |
| Templates.ToolsToIncludeIff | Tasks/PublishPackageTask.cs:68-69 | an item is included exactly when it packs a file listed in the runtime folder of a required rid |
| Templates.PublishPackageProject | Tasks/PublishPackageTask.cs:56-70 | defines Publish Package's five `Replace` calls in source order, the last with the items joined by the line separator; `Templates.PublishPackageProjectInstantiates` states what they produce |
| Templates.PublishPackageProjectIsReplaceEach | Tasks/PublishPackageTask.cs:56-70 | Publish Package's chain replaces its five placeholders in order |
| Templates.ToolsBraceFree | Tasks/PublishPackageTask.cs:68-70 | the joined items hold no brace when no rid, file path or line break does |
| Templates.PublishPackageProjectInstantiates | Tasks/PublishPackageTask.cs:56-70 | for a template whose literal text holds no '{' and settings and file paths without braces, Publish Package's text is the template filled in; with every hole one of its placeholders, no '{' remains |
| Workspace.FetchPlan | Tasks/PackageTask.cs:24-32 | defines the downloads of the loop, rid by rid, skipping a rid whose folder exists; the `Workspace.FetchPlan…` lemmas state which downloads happen |
| Workspace.Workspace.FetchRequired | Tasks/PackageTask.cs:24-32 | the loop creates the folders of all rids and issues exactly the downloads of the fetch plan |
| Workspace.FoldersDistinct | Tasks/PublishPackageTask.cs:46 | distinct rids have distinct binaries folders and distinct runtime folders |
| Workspace.FetchPlanSkipsExisting | Tasks/PackageTask.cs:26-28 | no download goes to a folder that existed before the loop, and each download is `artifacts-{rid}` into that rid's folder |
| Workspace.FetchPlanTargetsDistinct | Tasks/PublishPackageTask.cs:44-52 | no folder receives two downloads |
| Workspace.FetchPlanIntoFolders | Tasks/PackageTask.cs:30-31 | every download fills the folder of one of the loop's rids |
| Workspace.FetchPlanComplete | Tasks/PublishPackageTask.cs:44-52 | with distinct folders, a rid's artifact is downloaded exactly when the rid is required and its folder did not exist |
| Workspace.FetchAgainDownloadsNothing | Tasks/PublishPackageTask.cs:47-48 | when every folder exists, nothing is downloaded, so a second run downloads nothing |
| Workspace.Movable | Tasks/PublishToolTask.cs:38-41 | the number of files moved before the first name clash, at most all of them; `Workspace.MovableStopsAtClash` and `Workspace.MovableAllIff` state where it stops |
| Workspace.MovableStopsAtClash | Tasks/PublishToolTask.cs:38-41 | the files moved meet no name already in the folder, and the first file not moved clashes with one |
| Workspace.MovableAllIff | Tasks/PublishToolTask.cs:36-41 | every file is moved exactly when none is already in the folder and the listing has no repeated name |
| Workspace.ArtifactsFolder.PublishLocally | Tasks/PublishToolTask.cs:36-41 | the files before the first clash move, in order, to the end of the folder's contents and leave the top level; success means all of them moved |
| Workspace.PublishTool | Tasks/PublishToolTask.cs:9-42 | outside GitHub Actions, the artifacts move into `artifacts-{rid}` of the published rid |
| Workspace.LocalCopy | Tasks/PackageTask.cs:36-56 | Package's local copy reads the folder Publish Tool made exactly on macOS and on non-Arm Windows and Linux, and writes into the binaries folder of the rid that folder is named after |

## Behaviour of the code worth knowing

- The first failing file ends a run: each checker throws inside its loop
  over files (TestLinuxTask.cs:110-113, TestMacOSTask.cs:97-100 and
  136-140, TestWindowsTask.cs:93-96), so later files are neither checked
  nor logged (`Runner.CheckFilesStopsAtFirstFailure`).
- On Windows an empty tree passes: TestWindowsTask.cs:60 is only a comment
  and no check follows it (`Windows.EmptyTreePasses`). Linux and macOS
  raise the no-files error (TestLinuxTask.cs:27-30, TestMacOSTask.cs:14-17).
- The macOS architecture scan tests "x86_64" and "arm64" with `if` /
  `else if` (TestMacOSTask.cs:120-123), so a line that mentions both sets
  only `x86_64` (`MacOS.ScanArchitectures`, `MacOS.X86OnEveryLineHidesArm`,
  `MacOS.PathMentioningX86NeverUniversal`).
- Collected names are matched with `EndsWith` (TestLinuxTask.cs:82-89,
  TestMacOSTask.cs:68-75), so any reference that ends with the name of a
  file in the tree is accepted (`Matching.PathEndingInNameMatches`). As a
  consequence the Linux "VALID linkage" branch at TestLinuxTask.cs:97-101
  is never taken (`Linux.LocalBranchUnreachable`).
- Only macOS skips files, and only those whose path mentions `.DS_Store`
  (TestMacOSTask.cs:44); a macOS tree holding only `.DS_Store` files passes
  with an empty log (`MacOS.OnlyDsStorePasses`).
- Package reads the settings `ExecutableName` and `Description`
  (PackageTask.cs:139-140), which `PackContext.cs` does not declare; they
  are modelled as fields of `Templates.Tool`.
- A Windows or Linux build on Arm publishes an `-arm64` rid
  (PublishToolTask.cs:21-25) that neither packaging task downloads
  (`Rids.PublishRidRequiredIff`); outside GitHub Actions on such a machine,
  Package looks for the `-x64` folder (PackageTask.cs:37-44,
  `Workspace.LocalCopy`).

## Left out

- Running processes is not modelled: `ldd`, `dyld_info`, `file`,
  `dumpbin`, vswhere and `vsdevcmd.bat`. Their output is a parameter; a
  failure to start them is not modelled.
- Logging is a list of strings, so `context.Information` formatting and
  log levels are not modelled.
- Publish Tool's GitHub Actions branch (PublishToolTask.cs:29-32) is not
  modelled: `Workspace.PublishTool` models only the local move, and no
  upload is recorded. Of the GitHub Actions calls only the downloads are
  modelled, as `Workspace.Download` records; the nupkg uploads are left
  out too.
- `DotNetPack`, `DotNetNuGetPush`, the `GITHUB_TOKEN` variable and the
  NuGet source URL are not modelled.
- Reading embedded resources and writing files are not modelled: the
  project, targets and `Program.cs` outputs, `README.md` and `Icon.png`.
  The template text is a parameter.
- Package's final `DeleteDirectory` of the temp folder is not modelled.
- Package's `CopyDirectory` is not modelled; only which folder it reads and
  writes is (`Workspace.LocalCopy`).
- `PackageTask.RunOnGithubAsync` is not modelled separately. It repeats the
  download loop at lines 24-32, which `Workspace.Workspace.FetchRequired`
  models.
- Parsing the build arguments into `PackContext` is not modelled. The
  settings are the fields of `Templates.Tool`, and the universal-build flag
  is a parameter.
- `ShouldRun` and the task dependencies are not modelled. They only decide
  which task runs on which host.
- Paths are Unix paths joined with '/'. Windows separators, rooted paths
  and `Path.Combine` with a rooted second argument are not modelled.
- `Trim` removes ASCII white space only, `ToLower` maps ASCII letters
  only, and `StartsWith` and `EndsWith` compare ordinally. The .NET culture
  and Unicode rules, which the one-argument `StartsWith` and `EndsWith`
  apply, are not modelled.
- A missing directory is not modelled: the artifacts tree always exists.
  `Directory.GetFiles` and `Directory.GetDirectories` throw
  `DirectoryNotFoundException` when the artifacts directory is missing
  (TestLinuxTask.cs:37, TestMacOSTask.cs:24, TestWindowsTask.cs:55,
  PublishToolTask.cs:36), and outside GitHub Actions when a
  `runtimes/{rid}/native` folder was never created (PublishPackageTask.cs:68);
  the model has no failing case for these, and `Templates.ToolsToInclude`
  takes the listing of every folder as given.
- Case-insensitive file systems are not modelled: `Artifacts.ExistsInRoot`
  compares names exactly. On macOS's default file system, `File.Exists` at
  TestMacOSTask.cs:85 also finds a shipped `libfoo.dylib` for the
  reference `@rpath/LibFoo.dylib`, which the code then logs as VALID and
  `MacOS.Classify` rejects.
- Directory listings come in the order the tree gives. The file system's
  own enumeration order is not modelled.
- Workspace.ArtifactsFolder.PublishLocally: a file whose name is already in
  the target folder stops the move loop, standing for the exception
  `MoveFileToDirectory` raises. The model does not distinguish that
  exception's message, and it does not model other I/O errors.
- Templates.PackageProjectInstantiates: proved only for templates whose
  literal text holds no '{' and for settings without braces. Package runs
  the same chain on `Program.txt` (PackageTask.cs:63), C# source whose
  literal text holds braces; the lemma says nothing about that file, nor
  about a value that holds a later placeholder, which the chain would
  replace again. `Templates.PackageProject` itself is defined for every
  template.
- Templates.PublishPackageProjectInstantiates: proved only for templates
  whose literal text holds no '{' and for settings and file paths without
  braces, for the same reasons.
- Workspace.FetchPlanComplete: proved only for folder functions that are
  injective. `Workspace.FoldersDistinct` shows that the two folder
  functions the tasks use are injective.
