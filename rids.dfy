/** Runtime identifiers (rids): the name under which each build job uploads
    its artifacts, and the sets of rids the packaging jobs expect. */
module Rids {
  import opened Text

  /** The operating system the build runs on, as the runtime reports it. */
  datatype Platform = Windows | OSX | Linux | OtherPlatform

  /** RuntimeInformation.ProcessArchitecture. */
  datatype Architecture = X86 | X64 | Arm | Arm64 | OtherArchitecture

  predicate IsArm(arch: Architecture) {
    arch == Arm || arch == Arm64
  }

  /** The rids both packaging tasks download: one per platform for a
      universal macOS build, otherwise separate x64 and arm64 macOS rids. */
  function RequiredRids(universal: bool): (rids: seq<string>)
    ensures |rids| == if universal then 3 else 4
  {
    if universal then ["windows-x64", "linux-x64", "osx"]
    else ["windows-x64", "linux-x64", "osx-x64", "osx-arm64"]
  }

  /** The name of the uploaded artifact that holds a rid's binaries; the
      rid can be read back after the ten-character prefix, so distinct rids
      give distinct names. */
  function ArtifactName(rid: string): (name: string)
    ensures |name| == |rid| + 10
    ensures StartsWith(name, "artifacts-") && name[10..] == rid
  {
    "artifacts-" + rid
  }

  /** PublishTool's rid: the platform name ("linux" for any platform other
      than Windows and macOS), followed by the architecture suffix unless
      this is a universal macOS build. */
  function PublishRid(platform: Platform, arch: Architecture, universal: bool): (rid: string)
    ensures StartsWith(rid, match platform case Windows => "windows" case OSX => "osx" case _ => "linux")
  {
    var name := match platform
      case Windows => "windows"
      case OSX => "osx"
      case _ => "linux";
    if !(platform == OSX && universal) then name + (if IsArm(arch) then "-arm64" else "-x64")
    else name
  }

  /** The rid Package uses outside GitHub Actions: "windows-x64" and
      "linux-x64" whatever the architecture, "osx" for a universal build,
      otherwise the macOS architecture; on any other platform the rid stays
      empty. */
  function LocalRid(platform: Platform, arch: Architecture, universal: bool): (rid: string)
    ensures rid == [] <==> platform == OtherPlatform
  {
    match platform
    case Windows => "windows-x64"
    case Linux => "linux-x64"
    case OSX => if universal then "osx" else if IsArm(arch) then "osx-arm64" else "osx-x64"
    case OtherPlatform => ""
  }

  /** Where Package puts a rid's binaries: `{projectDir}/binaries/{rid}`
      with the project directory "temp". */
  function BinariesDir(rid: string): (dir: string)
    ensures |dir| == |rid| + 14
  {
    "temp/binaries/" + rid
  }

  /** Where PublishPackage puts them: the NuGet runtime folder of the rid. */
  function RuntimeDir(rid: string): (dir: string)
    ensures |dir| == |rid| + 16
  {
    "runtimes/" + rid + "/native"
  }

  // ---------------------------------------------------------- Properties

  /** No rid is required twice, so no artifact is downloaded twice. */
  lemma RequiredRidsDistinct(universal: bool)
    ensures forall i, j :: 0 <= i < j < |RequiredRids(universal)| ==> RequiredRids(universal)[i] != RequiredRids(universal)[j]
  {
    var rids := RequiredRids(universal);
    assert rids[0][0] == 'w' && rids[1][0] == 'l' && rids[2][0] == 'o';
    if !universal {
      assert |rids[2]| == 7 && |rids[3]| == 9;
      assert rids[3][0] == 'o';
    }
  }

  /** The rid a build job publishes is one the packaging tasks download
      exactly when the job runs on macOS or on a non-Arm processor: a
      Windows or Linux build on Arm publishes an "-arm64" rid nobody
      downloads. */
  lemma {:induction false} PublishRidRequiredIff(platform: Platform, arch: Architecture, universal: bool)
    ensures PublishRid(platform, arch, universal) in RequiredRids(universal) <==> platform == OSX || !IsArm(arch)
  {
    var rid := PublishRid(platform, arch, universal);
    var rids := RequiredRids(universal);
    if IsArm(arch) && platform != OSX {
      // The Arm rids are "windows-arm64" and "linux-arm64", 13 and 11
      // characters long; the only required rids of those lengths are
      // "osx-arm64" (9) and "windows-x64" (11), which start differently.
      assert rid[0] == (if platform == Windows then 'w' else 'l');
      assert |rid| == (if platform == Windows then 13 else 11);
      forall k | 0 <= k < |rids| ensures rids[k] != rid {
        assert |rids[k]| == 11 ==> rids[k][0] == 'w';
        if platform == Windows {
          assert |rids[k]| != 13;
        } else {
          assert |rids[k]| == 11 ==> rids[k] != rid;
        }
      }
    } else {
      if platform == Windows {
        assert rid == rids[0];
      } else if platform == OSX {
        assert rid == rids[if universal then 2 else if IsArm(arch) then 3 else 2];
      } else {
        assert rid == rids[1];
      }
    }
  }

  /** Every required rid is published by some build job. */
  lemma EveryRequiredRidIsPublished(universal: bool, rid: string)
    requires rid in RequiredRids(universal)
    ensures exists platform, arch :: PublishRid(platform, arch, universal) == rid
  {
    var rids := RequiredRids(universal);
    if rid == rids[0] {
      assert PublishRid(Windows, X64, universal) == rid;
    } else if rid == rids[1] {
      assert PublishRid(Linux, X64, universal) == rid;
    } else if rid == rids[2] {
      assert PublishRid(OSX, X64, universal) == rid;
    } else {
      assert PublishRid(OSX, Arm64, universal) == rid;
    }
  }

  /** Outside GitHub Actions, Package copies a rid that is required exactly
      when it runs on Windows, Linux or macOS. */
  lemma {:induction false} LocalRidIsRequired(platform: Platform, arch: Architecture, universal: bool)
    ensures LocalRid(platform, arch, universal) in RequiredRids(universal) <==> platform != OtherPlatform
  {
    var rids := RequiredRids(universal);
    match platform
    case Windows => assert LocalRid(platform, arch, universal) == rids[0];
    case Linux => assert LocalRid(platform, arch, universal) == rids[1];
    case OSX =>
      assert LocalRid(platform, arch, universal) == rids[if universal then 2 else if IsArm(arch) then 3 else 2];
    case OtherPlatform =>
      assert forall k :: 0 <= k < |rids| ==> |rids[k]| > 0;
  }

  /** Package's local rid names the folder PublishTool's local run made on
      the same machine exactly on macOS and on Windows or Linux with a
      non-Arm processor: on Arm Windows or Linux, Package looks for the x64
      folder, and on another platform for "artifacts-". */
  lemma {:induction false} LocalRidMatchesPublishRid(platform: Platform, arch: Architecture, universal: bool)
    ensures LocalRid(platform, arch, universal) == PublishRid(platform, arch, universal) <==>
            platform == OSX || ((platform == Windows || platform == Linux) && !IsArm(arch))
  {
    var local := LocalRid(platform, arch, universal);
    var published := PublishRid(platform, arch, universal);
    if platform != OSX && IsArm(arch) {
      assert |local| != |published| || platform == OtherPlatform;
      if platform == OtherPlatform {
        assert |local| == 0 < |published|;
      }
    } else if platform == OtherPlatform {
      assert |local| == 0 < |published|;
    }
  }

  /** The artifact names the packaging tasks download are exactly the names
      the build jobs on macOS and on non-Arm Windows and Linux upload. */
  lemma {:induction false} ArtifactNamesAgree(universal: bool, name: string)
    ensures (exists k :: 0 <= k < |RequiredRids(universal)| && name == ArtifactName(RequiredRids(universal)[k])) <==>
            (exists platform, arch :: (platform == OSX || !IsArm(arch)) && name == ArtifactName(PublishRid(platform, arch, universal)))
  {
    var rids := RequiredRids(universal);
    if k :| 0 <= k < |rids| && name == ArtifactName(rids[k]) {
      EveryRequiredRidIsPublished(universal, rids[k]);
      var platform, arch :| PublishRid(platform, arch, universal) == rids[k];
      PublishRidRequiredIff(platform, arch, universal);
      if platform != OSX && IsArm(arch) {
        // Not reachable: the rid is required, so it is not an Arm
        // Windows or Linux rid.
        assert false;
      }
    }
    if platform, arch :| (platform == OSX || !IsArm(arch)) && name == ArtifactName(PublishRid(platform, arch, universal)) {
      PublishRidRequiredIff(platform, arch, universal);
      var rid := PublishRid(platform, arch, universal);
      var k :| 0 <= k < |rids| && rids[k] == rid;
      assert name == ArtifactName(rids[k]);
    }
  }
}
