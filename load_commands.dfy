/**
 * Mach-O load commands that carry platform and version information, and the
 * Mac Catalyst rewrite of one command and of a header's command list, as
 * functions.  `MachOPatcher.MachHeader.RewriteVersionCommands` performs the
 * same rewrite in place and is proved to agree with `PatchCommands`.
 */
module LoadCommands {
  import opened VersionCodec

  // Command tags of <mach-o/loader.h>.
  const LC_VERSION_MIN_MACOSX: uint32 := 0x24
  const LC_VERSION_MIN_IPHONEOS: uint32 := 0x25
  const LC_VERSION_MIN_TVOS: uint32 := 0x2F
  const LC_VERSION_MIN_WATCHOS: uint32 := 0x30
  const LC_BUILD_VERSION: uint32 := 0x32

  /** The platform code of Mac Catalyst in `build_version_command.platform`. */
  const PLATFORM_MACCATALYST: uint32 := 6

  /**
   * The command-specific structure that follows the generic load-command
   * header.  `Other` stands for every structure the rewrite never looks at,
   * kept as its raw bytes.
   */
  datatype Payload =
    | BuildVersion(platform: uint32, minos: uint32, sdk: uint32, ntools: uint32)
    | VersionMin(version: uint32, sdk: uint32)
    | Other(raw: seq<bv8>)

  /** A load command: its tag (`cmd`), its size (`cmdsize`) and its payload. */
  datatype LoadCommand = LoadCommand(cmd: uint32, cmdsize: uint32, payload: Payload)

  /** The version-min tags the rewrite converts: iPhoneOS, tvOS and watchOS. */
  predicate IsMobileVersionMin(tag: uint32)
  {
    tag == LC_VERSION_MIN_IPHONEOS || tag == LC_VERSION_MIN_TVOS || tag == LC_VERSION_MIN_WATCHOS
  }

  /** Every version-min tag, including the macOS one. */
  predicate IsVersionMin(tag: uint32)
  {
    tag == LC_VERSION_MIN_MACOSX || IsMobileVersionMin(tag)
  }

  /** The tags the filter of `patch_macho`'s loop selects for rewriting. */
  predicate IsSelected(tag: uint32)
  {
    tag == LC_BUILD_VERSION || IsMobileVersionMin(tag)
  }

  /**
   * The parser builds the payload structure from the tag: build-version
   * commands carry a `BuildVersion`, the four version-min commands a
   * `VersionMin`, every other command something else.
   */
  predicate Matches(c: LoadCommand)
  {
    match c.payload
    case BuildVersion(_, _, _, _) => c.cmd == LC_BUILD_VERSION
    case VersionMin(_, _) => IsVersionMin(c.cmd)
    case Other(_) => c.cmd != LC_BUILD_VERSION && !IsVersionMin(c.cmd)
  }

  predicate AllMatch(s: seq<LoadCommand>)
  {
    forall k :: 0 <= k < |s| ==> Matches(s[k])
  }

  /**
   * The rewrite of one command, by payload kind: a build-version command gets
   * the Mac Catalyst platform and mapped `minos`/`sdk`; a mobile version-min
   * command becomes a macOS version-min command with mapped `version`/`sdk`;
   * every other command is returned as it is.  The size and the untouched
   * fields are kept, and the rewritten command still matches its tag.
   */
  function PatchCommand(c: LoadCommand): (r: LoadCommand)
    requires Matches(c)
    ensures Matches(r)
    ensures r.cmdsize == c.cmdsize
  {
    match c.payload
    case BuildVersion(platform, minos, sdk, ntools) =>
      LoadCommand(c.cmd, c.cmdsize,
                  BuildVersion(PLATFORM_MACCATALYST, MapOsVersion(minos), MapOsVersion(sdk), ntools))
    case VersionMin(version, sdk) =>
      if c.cmd == LC_VERSION_MIN_MACOSX then c
      else LoadCommand(LC_VERSION_MIN_MACOSX, c.cmdsize, VersionMin(MapOsVersion(version), MapOsVersion(sdk)))
    case Other(_) => c
  }

  /** The rewrite of a header's whole command list, command by command. */
  function PatchCommands(s: seq<LoadCommand>): (r: seq<LoadCommand>)
    requires AllMatch(s)
    ensures |r| == |s|
    ensures AllMatch(r)
  {
    if s == [] then [] else [PatchCommand(s[0])] + PatchCommands(s[1..])
  }

  /** The k-th command of the result is the rewrite of the k-th command. */
  lemma {:induction false} PatchCommandsAt(s: seq<LoadCommand>, k: int)
    requires AllMatch(s)
    requires 0 <= k < |s|
    ensures PatchCommands(s)[k] == PatchCommand(s[k])
  {
    if k > 0 {
      assert AllMatch(s[1..]) by {
        forall j | 0 <= j < |s[1..]| ensures Matches(s[1..][j]) { assert s[1..][j] == s[j + 1]; }
      }
      PatchCommandsAt(s[1..], k - 1);
    }
  }

  /**
   * A command tagged LC_BUILD_VERSION keeps its tag, size and tool count and
   * gets platform 6 (Mac Catalyst) and mapped `minos`/`sdk`, whatever its
   * platform was.
   */
  lemma BuildVersionRewritten(s: seq<LoadCommand>, k: int)
    requires AllMatch(s)
    requires 0 <= k < |s| && s[k].cmd == LC_BUILD_VERSION
    ensures s[k].payload.BuildVersion?
    ensures var r := PatchCommands(s)[k];
      r.cmd == LC_BUILD_VERSION && r.cmdsize == s[k].cmdsize &&
      r.payload == BuildVersion(PLATFORM_MACCATALYST,
                                MapOsVersion(s[k].payload.minos),
                                MapOsVersion(s[k].payload.sdk),
                                s[k].payload.ntools)
  {
    PatchCommandsAt(s, k);
  }

  /**
   * A command tagged iPhoneOS, tvOS or watchOS version-min is re-tagged
   * LC_VERSION_MIN_MACOSX, keeps its size, and has `version` and `sdk` mapped.
   */
  lemma MobileVersionMinRewritten(s: seq<LoadCommand>, k: int)
    requires AllMatch(s)
    requires 0 <= k < |s| && IsMobileVersionMin(s[k].cmd)
    ensures s[k].payload.VersionMin?
    ensures var r := PatchCommands(s)[k];
      r.cmd == LC_VERSION_MIN_MACOSX && r.cmdsize == s[k].cmdsize &&
      r.payload == VersionMin(MapOsVersion(s[k].payload.version), MapOsVersion(s[k].payload.sdk))
  {
    PatchCommandsAt(s, k);
  }

  /**
   * Every command whose tag the filter does not select, an existing
   * LC_VERSION_MIN_MACOSX among them, comes out unchanged.
   */
  lemma UnselectedUnchanged(s: seq<LoadCommand>, k: int)
    requires AllMatch(s)
    requires 0 <= k < |s| && !IsSelected(s[k].cmd)
    ensures PatchCommands(s)[k] == s[k]
  {
    PatchCommandsAt(s, k);
  }

  /**
   * A selected command comes out tagged LC_BUILD_VERSION or
   * LC_VERSION_MIN_MACOSX, and it is LC_BUILD_VERSION afterwards exactly when
   * it was before.
   */
  lemma SelectedIsRewritten(s: seq<LoadCommand>, k: int)
    requires AllMatch(s)
    requires 0 <= k < |s| && IsSelected(s[k].cmd)
    ensures PatchCommands(s)[k].cmd == LC_BUILD_VERSION || PatchCommands(s)[k].cmd == LC_VERSION_MIN_MACOSX
    ensures PatchCommands(s)[k].cmd == LC_BUILD_VERSION <==> s[k].cmd == LC_BUILD_VERSION
  {
    PatchCommandsAt(s, k);
  }

  /** A command a second pass leaves as the first pass made it (see PatchCommandTwiceIff). */
  predicate SecondPassStable(c: LoadCommand)
  {
    c.payload.BuildVersion? ==> Decode(c.payload.minos).0 <= 14 && Decode(c.payload.sdk).0 <= 14
  }

  /**
   * Applying the rewrite a second time to one command changes nothing exactly
   * when the command is not a build-version command, or both its `minos` and
   * its `sdk` have a major version of at most 14.  In particular a version-min
   * command converted to macOS is no longer selected and stays as it is.
   */
  lemma PatchCommandTwiceIff(c: LoadCommand)
    requires Matches(c)
    ensures PatchCommand(PatchCommand(c)) == PatchCommand(c) <==> SecondPassStable(c)
  {
    if c.payload.BuildVersion? {
      MapTwiceIff(c.payload.minos);
      MapTwiceIff(c.payload.sdk);
    }
  }

  /**
   * A second pass over a header leaves it unchanged exactly when every
   * build-version command had `minos` and `sdk` majors of at most 14;
   * version-min commands never stand in the way.
   */
  lemma PatchCommandsTwiceIff(s: seq<LoadCommand>)
    requires AllMatch(s)
    ensures PatchCommands(PatchCommands(s)) == PatchCommands(s) <==>
      forall k :: 0 <= k < |s| ==> SecondPassStable(s[k])
  {
    var once := PatchCommands(s);
    var twice := PatchCommands(once);
    forall k | 0 <= k < |s|
      ensures twice[k] == PatchCommand(once[k]) && once[k] == PatchCommand(s[k])
    {
      PatchCommandsAt(s, k);
      PatchCommandsAt(once, k);
    }
    if twice == once {
      forall k | 0 <= k < |s| ensures SecondPassStable(s[k]) {
        PatchCommandTwiceIff(s[k]);
        assert twice[k] == once[k];
      }
    }
    if forall k :: 0 <= k < |s| ==> SecondPassStable(s[k]) {
      forall k | 0 <= k < |s| ensures twice[k] == once[k] {
        PatchCommandTwiceIff(s[k]);
      }
    }
  }

  /** A converted version-min command is not selected again by a second pass. */
  lemma ConvertedVersionMinStable(s: seq<LoadCommand>, k: int)
    requires AllMatch(s)
    requires 0 <= k < |s| && IsMobileVersionMin(s[k].cmd)
    ensures !IsSelected(PatchCommands(s)[k].cmd)
    ensures PatchCommands(PatchCommands(s))[k] == PatchCommands(s)[k]
  {
    PatchCommandsAt(s, k);
    UnselectedUnchanged(PatchCommands(s), k);
  }

  /** A build-version command can change again on a second pass: iOS 17.0 goes 14.0, then 11.0. */
  lemma BuildVersionNotIdempotent()
    ensures var c := LoadCommand(LC_BUILD_VERSION, 24, BuildVersion(2, Encode(17, 0, 0), Encode(17, 0, 0), 0));
      PatchCommand(c).payload == BuildVersion(PLATFORM_MACCATALYST, Encode(14, 0, 0), Encode(14, 0, 0), 0) &&
      PatchCommand(PatchCommand(c)).payload == BuildVersion(PLATFORM_MACCATALYST, Encode(11, 0, 0), Encode(11, 0, 0), 0)
  {
    MapExamples();
    assert MapOsVersion(Encode(14, 0, 0)) == Encode(11, 0, 0);
  }
}
