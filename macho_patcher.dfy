/**
 * The Mach-O patcher: the in-place rewrite of the first header's load
 * commands, and the new file contents made of the re-serialized header
 * followed by the original bytes that come after it.
 *
 * Parsing a file into headers and serializing a header back into bytes are
 * done by a Mach-O library that is not part of this model: a parsed header is
 * given as a `MachHeader` built from its command list, and serialization is
 * the parameter `serialize`.
 */
module MachOPatcher {
  import opened VersionCodec
  import opened LoadCommands

  /** One parsed Mach-O header: its load commands, in file order. */
  class MachHeader {
    const commands: array<LoadCommand>

    /** Every command's payload structure is the one its tag calls for. */
    ghost predicate Valid()
      reads commands
    {
      AllMatch(commands[..])
    }

    constructor (parsed: seq<LoadCommand>)
      requires AllMatch(parsed)
      ensures Valid() && fresh(commands)
      ensures commands[..] == parsed
    {
      commands := new LoadCommand[|parsed|](k requires 0 <= k < |parsed| => parsed[k]);
    }

    /**
     * The loop of `patch_macho`: walk the commands in order; a build-version
     * command gets platform 6 and mapped `minos`, a mobile version-min command
     * is re-tagged LC_VERSION_MIN_MACOSX and gets a mapped `version`, and both
     * get a mapped `sdk`.  The result is `PatchCommands` of the old list, so
     * the number and order of the commands stay as they were.
     */
    method RewriteVersionCommands()
      requires Valid()
      modifies commands
      ensures Valid()
      ensures commands[..] == PatchCommands(old(commands[..]))
    {
      ghost var was := commands[..];
      var i := 0;
      while i < commands.Length
        invariant 0 <= i <= commands.Length
        invariant forall k :: 0 <= k < i ==> commands[k] == PatchCommand(was[k])
        invariant forall k :: i <= k < commands.Length ==> commands[k] == was[k]
      {
        var cmd := commands[i];
        if cmd.cmd == LC_BUILD_VERSION || IsMobileVersionMin(cmd.cmd) {
          var tag := cmd.cmd;
          var payload := cmd.payload;
          if IsMobileVersionMin(cmd.cmd) {
            tag := LC_VERSION_MIN_MACOSX;
            payload := payload.(version := MapOsVersion(payload.version));
          } else {
            payload := payload.(platform := PLATFORM_MACCATALYST);
            payload := payload.(minos := MapOsVersion(payload.minos));
          }
          payload := payload.(sdk := MapOsVersion(payload.sdk));
          commands[i] := LoadCommand(tag, cmd.cmdsize, payload);
        }
        i := i + 1;
      }
      forall k | 0 <= k < commands.Length ensures commands[..][k] == PatchCommands(was)[k] {
        PatchCommandsAt(was, k);
      }
    }
  }

  /**
   * The new file contents: the serialized header `h`, then the original bytes
   * from offset |h| on (reading past the end of the original gives nothing).
   * When the header is no longer than the file, the length is kept and every
   * byte from offset |h| on is the original's.
   */
  function Splice(h: seq<bv8>, original: seq<bv8>): (out: seq<bv8>)
    ensures |out| == if |h| <= |original| then |original| else |h|
    ensures out[..|h|] == h
    ensures forall i :: |h| <= i < |out| ==> out[i] == original[i]
  {
    if |h| <= |original| then h + original[|h|..] else h
  }

  /** Writing back header bytes equal to the file's own leaves the file byte-identical. */
  lemma SpliceSameHeader(h: seq<bv8>, original: seq<bv8>)
    requires |h| <= |original| && original[..|h|] == h
    ensures Splice(h, original) == original
  {
    assert original == original[..|h|] + original[|h|..];
  }

  /**
   * `patch_macho` without its I/O: rewrite the commands of the first header in
   * place and return the bytes the file is overwritten with.  Headers other
   * than the first are left alone.
   */
  method PatchMachO(headers: seq<MachHeader>, original: seq<bv8>, serialize: seq<LoadCommand> -> seq<bv8>)
    returns (contents: seq<bv8>)
    requires |headers| > 0 && headers[0].Valid()
    modifies headers[0].commands
    ensures headers[0].Valid()
    ensures headers[0].commands[..] == PatchCommands(old(headers[0].commands[..]))
    ensures contents == Splice(serialize(headers[0].commands[..]), original)
    ensures forall j :: 0 < j < |headers| && headers[j].commands != headers[0].commands ==>
      headers[j].commands[..] == old(headers[j].commands[..])
  {
    headers[0].RewriteVersionCommands();
    var h := serialize(headers[0].commands[..]);
    contents := Splice(h, original);
  }

  /**
   * Patching a file a second time: if the first pass rewrote the command list
   * `s` and the header it wrote is parsed back as the rewritten list, a second
   * pass writes the file back unchanged whenever every build-version command
   * of `s` had `minos` and `sdk` majors of at most 14.
   */
  lemma SecondPassLeavesFileUnchanged(s: seq<LoadCommand>, original: seq<bv8>,
                                      serialize: seq<LoadCommand> -> seq<bv8>)
    requires AllMatch(s)
    requires forall k :: 0 <= k < |s| ==> SecondPassStable(s[k])
    ensures var once := PatchCommands(s);
      var file := Splice(serialize(once), original);
      Splice(serialize(PatchCommands(once)), file) == file
  {
    var once := PatchCommands(s);
    var file := Splice(serialize(once), original);
    PatchCommandsTwiceIff(s);
    SpliceSameHeader(serialize(once), file);
  }
}
