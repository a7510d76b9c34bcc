/** The file-system side of packaging: the loop that downloads each
    required rid's artifact unless its folder already exists, and the local
    run of PublishTool that moves the artifacts directory's files into the
    folder named after the rid. */
module Workspace {
  import opened Rids
  import Text

  // ------------------------------------------------------------ Downloads

  /** One DownloadArtifact call: the artifact's name and the folder it is
      unpacked into. */
  datatype Download = Download(artifact: string, target: string)

  /** The folders of the given rids. */
  function Folders(rids: seq<string>, folderOf: string -> string): (dirs: set<string>)
    ensures forall k :: 0 <= k < |rids| ==> folderOf(rids[k]) in dirs
  {
    set k | 0 <= k < |rids| :: folderOf(rids[k])
  }

  /** The downloads of the loop over `rids`, rid by rid: a rid whose folder
      exists (beforehand, or because an earlier rid created it) is skipped;
      any other gets its folder and its artifact. */
  function FetchPlan(rids: seq<string>, folderOf: string -> string, existing: set<string>): seq<Download>
    decreases |rids|
  {
    if rids == [] then []
    else
      var before := rids[..|rids| - 1];
      var rid := rids[|rids| - 1];
      FetchPlan(before, folderOf, existing) +
      (if folderOf(rid) in existing + Folders(before, folderOf) then []
       else [Download(ArtifactName(rid), folderOf(rid))])
  }

  /** The build's working tree as the download loop sees it: the folders
      that exist, and the downloads made so far. */
  class Workspace {
    var directories: set<string>
    var downloads: seq<Download>

    constructor(existing: set<string>)
      ensures directories == existing && downloads == []
    {
      directories := existing;
      downloads := [];
    }

    /** The loop of Package (with `folderOf` the binaries folder) and of
        PublishPackage (with the runtime folder) on GitHub Actions. */
    method FetchRequired(rids: seq<string>, folderOf: string -> string)
      modifies this
      ensures directories == old(directories) + Folders(rids, folderOf)
      ensures downloads == old(downloads) + FetchPlan(rids, folderOf, old(directories))
    {
      for i := 0 to |rids|
        invariant directories == old(directories) + Folders(rids[..i], folderOf)
        invariant downloads == old(downloads) + FetchPlan(rids[..i], folderOf, old(directories))
      {
        var rid := rids[i];
        var directoryPath := folderOf(rid);
        assert rids[..i + 1][..i] == rids[..i] && rids[..i + 1][i] == rid;
        FoldersStep(rids, i, folderOf);
        if directoryPath in directories {
          continue;
        }
        directories := directories + {directoryPath};
        downloads := downloads + [Download(ArtifactName(rid), directoryPath)];
      }
      assert rids[..|rids|] == rids;
    }
  }

  lemma FoldersStep(rids: seq<string>, i: nat, folderOf: string -> string)
    requires i < |rids|
    ensures Folders(rids[..i + 1], folderOf) == Folders(rids[..i], folderOf) + {folderOf(rids[i])}
  {
    var next := rids[..i + 1];
    assert forall k :: 0 <= k < i ==> next[k] == rids[..i][k];
    forall d | d in Folders(next, folderOf) ensures d in Folders(rids[..i], folderOf) + {folderOf(rids[i])} {
      var k :| 0 <= k < |next| && d == folderOf(next[k]);
      if k < i {
        assert d == folderOf(rids[..i][k]);
      }
    }
  }

  /** Folder names made from distinct rids are distinct. */
  ghost predicate Injective(folderOf: string -> string) {
    forall a, b :: folderOf(a) == folderOf(b) ==> a == b
  }

  lemma {:induction false} FoldersDistinct()
    ensures Injective(BinariesDir) && Injective(RuntimeDir)
  {
    forall a, b | BinariesDir(a) == BinariesDir(b) ensures a == b {
      assert a == BinariesDir(a)[14..] && b == BinariesDir(b)[14..];
    }
    forall a, b | RuntimeDir(a) == RuntimeDir(b) ensures a == b {
      assert a == RuntimeDir(a)[9..|RuntimeDir(a)| - 7];
      assert b == RuntimeDir(b)[9..|RuntimeDir(b)| - 7];
    }
  }

  /** No download goes to a folder that existed before the loop, and each
      download brings the artifact of the rid whose folder it fills. */
  lemma {:induction false} FetchPlanSkipsExisting(rids: seq<string>, folderOf: string -> string, existing: set<string>)
    ensures forall k :: 0 <= k < |FetchPlan(rids, folderOf, existing)| ==>
              FetchPlan(rids, folderOf, existing)[k].target !in existing &&
              exists r :: r in rids && FetchPlan(rids, folderOf, existing)[k] == Download(ArtifactName(r), folderOf(r))
    decreases |rids|
  {
    if rids != [] {
      var before := rids[..|rids| - 1];
      FetchPlanSkipsExisting(before, folderOf, existing);
      var plan := FetchPlan(rids, folderOf, existing);
      var head := FetchPlan(before, folderOf, existing);
      forall k | 0 <= k < |plan|
        ensures plan[k].target !in existing
        ensures exists r :: r in rids && plan[k] == Download(ArtifactName(r), folderOf(r))
      {
        if k < |head| {
          assert plan[k] == head[k];
          var r :| r in before && head[k] == Download(ArtifactName(r), folderOf(r));
          assert r in rids;
        } else {
          assert plan[k] == Download(ArtifactName(rids[|rids| - 1]), folderOf(rids[|rids| - 1]));
        }
      }
    }
  }

  /** Each folder receives at most one download. */
  lemma {:induction false} FetchPlanTargetsDistinct(rids: seq<string>, folderOf: string -> string, existing: set<string>)
    ensures forall i, j :: 0 <= i < j < |FetchPlan(rids, folderOf, existing)| ==>
              FetchPlan(rids, folderOf, existing)[i].target != FetchPlan(rids, folderOf, existing)[j].target
    decreases |rids|
  {
    if rids != [] {
      var before := rids[..|rids| - 1];
      var rid := rids[|rids| - 1];
      FetchPlanTargetsDistinct(before, folderOf, existing);
      FetchPlanIntoFolders(before, folderOf, existing);
    }
  }

  /** The downloads of a loop fill folders of its own rids. */
  lemma {:induction false} FetchPlanIntoFolders(rids: seq<string>, folderOf: string -> string, existing: set<string>)
    ensures forall k :: 0 <= k < |FetchPlan(rids, folderOf, existing)| ==>
              FetchPlan(rids, folderOf, existing)[k].target in Folders(rids, folderOf)
  {
    FetchPlanSkipsExisting(rids, folderOf, existing);
    var plan := FetchPlan(rids, folderOf, existing);
    forall k | 0 <= k < |plan| ensures plan[k].target in Folders(rids, folderOf) {
      var r :| r in rids && plan[k] == Download(ArtifactName(r), folderOf(r));
      var m :| 0 <= m < |rids| && rids[m] == r;
    }
  }

  /** With distinct folders per rid, the loop downloads the artifact of a
      rid exactly when the rid is required and its folder did not exist. */
  lemma {:induction false} FetchPlanComplete(rids: seq<string>, folderOf: string -> string, existing: set<string>, rid: string)
    requires Injective(folderOf)
    ensures Download(ArtifactName(rid), folderOf(rid)) in FetchPlan(rids, folderOf, existing) <==>
            rid in rids && folderOf(rid) !in existing
    decreases |rids|
  {
    var plan := FetchPlan(rids, folderOf, existing);
    var d := Download(ArtifactName(rid), folderOf(rid));
    if d in plan {
      FetchPlanSkipsExisting(rids, folderOf, existing);
      var k :| 0 <= k < |plan| && plan[k] == d;
      var r :| r in rids && plan[k] == Download(ArtifactName(r), folderOf(r));
    }
    if rids != [] && rid in rids && folderOf(rid) !in existing {
      var before := rids[..|rids| - 1];
      var last := rids[|rids| - 1];
      if rid == last && rid !in before {
        assert folderOf(rid) !in Folders(before, folderOf);
        assert plan[|plan| - 1] == d;
      } else {
        if rid != last {
          var m :| 0 <= m < |rids| && rids[m] == rid;
          assert before[m] == rid;
        }
        FetchPlanComplete(before, folderOf, existing, rid);
        var k :| 0 <= k < |FetchPlan(before, folderOf, existing)| && FetchPlan(before, folderOf, existing)[k] == d;
        assert plan[k] == d;
      }
    }
  }

  /** When every rid's folder exists, the loop downloads nothing; in
      particular running it again downloads nothing. */
  lemma {:induction false} FetchAgainDownloadsNothing(rids: seq<string>, folderOf: string -> string, existing: set<string>)
    requires Folders(rids, folderOf) <= existing
    ensures FetchPlan(rids, folderOf, existing) == []
    decreases |rids|
  {
    if rids != [] {
      var i := |rids| - 1;
      FoldersStep(rids, i, folderOf);
      assert rids[..i + 1] == rids;
      FetchAgainDownloadsNothing(rids[..i], folderOf, existing);
    }
  }

  // --------------------------------------------------- Publishing locally

  /** How many of `files` are moved into a folder holding `target` before
      one of them meets a name already there (File.Move does not
      overwrite): all of them when none does. */
  function Movable(files: seq<string>, target: seq<string>): (k: nat)
    ensures k <= |files|
  {
    if files == [] then 0
    else if files[0] in target then 0
    else 1 + Movable(files[1..], target + [files[0]])
  }

  /** The files before the clash meet no name already present, and the
      file at the clash does. */
  lemma {:induction false} MovableStopsAtClash(files: seq<string>, target: seq<string>)
    ensures forall j :: 0 <= j < Movable(files, target) ==> files[j] !in target + files[..j]
    ensures Movable(files, target) < |files| ==> files[Movable(files, target)] in target + files[..Movable(files, target)]
    decreases |files|
  {
    if files != [] && files[0] !in target {
      MovableStopsAtClash(files[1..], target + [files[0]]);
      assert forall j :: 1 <= j <= |files| ==> target + files[..j] == target + [files[0]] + files[1..][..j - 1];
    }
  }

  /** Every listed file is moved exactly when none of them is already in
      the folder and no two share a name. */
  lemma MovableAllIff(files: seq<string>, target: seq<string>)
    ensures Movable(files, target) == |files| <==>
            (forall j :: 0 <= j < |files| ==> files[j] !in target) &&
            (forall i, j :: 0 <= i < j < |files| ==> files[i] != files[j])
  {
    var k := Movable(files, target);
    MovableStopsAtClash(files, target);
    if k < |files| {
      assert files[k] in target || files[k] in files[..k];
      if files[k] !in target {
        var i :| 0 <= i < k && files[..k][i] == files[k];
        assert files[i] == files[k];
      }
    } else {
      forall i, j | 0 <= i < j < |files| ensures files[i] != files[j] {
        assert files[i] in files[..j];
      }
    }
  }

  lemma MovableStep(files: seq<string>, target: seq<string>, m: nat)
    requires m < |files|
    ensures files[m] in target + files[..m] ==> Movable(files[m..], target + files[..m]) == 0
    ensures files[m] !in target + files[..m] ==>
              Movable(files[m..], target + files[..m]) == 1 + Movable(files[m + 1..], target + files[..m + 1])
  {
    assert files[m..][0] == files[m] && files[m..][1..] == files[m + 1..];
    assert target + files[..m] + [files[m]] == target + files[..m + 1];
  }

  /** The artifacts directory: the files at its top level, in the order
      Directory.GetFiles lists them, and its sub-folders with their files. */
  class ArtifactsFolder {
    var files: seq<string>
    var folders: map<string, seq<string>>

    constructor(files: seq<string>, folders: map<string, seq<string>>)
      ensures this.files == files && this.folders == folders
    {
      this.files := files;
      this.folders := folders;
    }

    function Contents(name: string): seq<string>
      reads this
    {
      if name in folders then folders[name] else []
    }

    /** PublishTool outside GitHub Actions: list the top-level files, create
        the folder `copyTo`, and move the listed files into it one by one.
        Moving a file whose name the folder already holds fails, leaving it
        and the files after it in place; sub-folders are not moved. */
    method PublishLocally(copyTo: string) returns (ok: bool)
      modifies this
      ensures var moved := Movable(old(files), old(Contents(copyTo)));
              ok == (moved == |old(files)|) &&
              files == old(files)[moved..] &&
              folders == old(folders)[copyTo := old(Contents(copyTo)) + old(files)[..moved]]
    {
      var listed := files;
      ghost var before := Contents(copyTo);
      var target := Contents(copyTo);
      folders := folders[copyTo := target];
      var moved := 0;
      assert listed[0..] == listed && before + listed[..0] == before;
      while moved < |listed|
        invariant moved <= |listed|
        invariant moved + Movable(listed[moved..], before + listed[..moved]) == Movable(listed, before)
        invariant files == listed[moved..]
        invariant target == before + listed[..moved]
        invariant folders == old(folders)[copyTo := target]
        decreases |listed| - moved
      {
        var file := listed[moved];
        MovableStep(listed, before, moved);
        if file in target {
          ok := false;
          return;
        }
        assert target + [file] == before + listed[..moved + 1];
        target := target + [file];
        folders := folders[copyTo := target];
        files := files[1..];
        moved := moved + 1;
      }
      assert listed[..moved] == listed;
      ok := true;
    }
  }

  /** PublishTool outside GitHub Actions: the folder is named after the
      artifact of the machine's rid. */
  method PublishTool(folder: ArtifactsFolder, platform: Platform, arch: Architecture, universal: bool) returns (ok: bool)
    modifies folder
    ensures var copyTo := ArtifactName(PublishRid(platform, arch, universal));
            var moved := Movable(old(folder.files), old(folder.Contents(copyTo)));
            ok == (moved == |old(folder.files)|) &&
            folder.files == old(folder.files)[moved..] &&
            folder.folders == old(folder.folders)[copyTo := old(folder.Contents(copyTo)) + old(folder.files)[..moved]]
  {
    var rid := PublishRid(platform, arch, universal);
    var copyTo := ArtifactName(rid);
    ok := folder.PublishLocally(copyTo);
  }

  /** Package outside GitHub Actions copies the folder of the artifacts
      directory named after its local rid into the rid's binaries folder.
      On the same machine, that folder is the one PublishTool filled exactly
      on macOS and on non-Arm Windows and Linux, and the binaries folder
      belongs to the rid the copied folder is named after. */
  function LocalCopy(platform: Platform, arch: Architecture, universal: bool): (copy: (string, string))
    ensures copy.0 == ArtifactName(PublishRid(platform, arch, universal)) <==>
            platform == OSX || ((platform == Windows || platform == Linux) && !IsArm(arch))
    ensures Text.StartsWith(copy.0, "artifacts-") && copy.1 == BinariesDir(copy.0[10..])
  {
    var rid := LocalRid(platform, arch, universal);
    var pub := PublishRid(platform, arch, universal);
    LocalRidMatchesPublishRid(platform, arch, universal);
    assert ArtifactName(rid)[10..] == rid && ArtifactName(pub)[10..] == pub;
    (ArtifactName(rid), BinariesDir(rid))
  }
}
