# ios2catalyst: the Mach-O platform rewrite, in Dafny

ios2catalyst turns an iOS, tvOS or watchOS executable into a Mac Catalyst
one by rewriting platform and version fields of the load commands in the
first Mach-O header, writing the header back over the start of the file and
keeping every later byte. This project models that core and proves what it
does.

- `version_codec.dfy` (module `VersionCodec`): the packed `xxxx.yy.zz`
  version word of `version_min_command` and `build_version_command`
  (`encode_os_version`, `decode_os_version`) and the iOS-to-macOS mapping
  `ios_build_to_macos` (`MapOsVersion`). Majors below 14 go to 11.0.0. Any
  other major M goes to (M - 3).0.0.
- `load_commands.dfy` (module `LoadCommands`): load commands as values. The
  payload is `BuildVersion`, `VersionMin` or an opaque `Other`. The tag
  constants come from `<mach-o/loader.h>` (0x24, 0x25, 0x2F, 0x30, 0x32) and
  the Mac Catalyst platform code is 6. The predicate `Matches` states that the
  payload kind fits the tag, which holds for anything the parser produces.
  `PatchCommand` and `PatchCommands` specify the rewrite of one command and of
  a whole command list. The lemmas state the per-command results, the frame
  conditions and the behaviour of a second pass.
- `macho_patcher.dfy` (module `MachOPatcher`): the class `MachHeader` holds
  the commands in an array. `RewriteVersionCommands` is the loop of
  `patch_macho`: it updates the array in place and is proved equal to
  `PatchCommands`. `Splice` builds the new file bytes. `PatchMachO` ties the
  two together for the first header.

Two consequences of the code worth stating up front:

- `encode_os_version` does no range check, so `Encode` takes 0..255 for each
  component as a precondition. Every caller in the code meets it.
- A second run over an already patched binary is not always a no-op.
  Converted version-min commands are no longer selected and stay as they are.
  A build-version command stays as it is only when its `minos` and `sdk`
  majors were at most 14. Otherwise they change again on the next pass (iOS
  17 becomes 14, then 11). `PatchCommandsTwiceIff` proves this in both
  directions, and `BuildVersionNotIdempotent` gives the concrete case.

## Model

| member | source | states |
|---|---|---|
| VersionCodec.Encode | ios2catalyst.py:12-13 | for components in 0..255 the packed word decodes back to the same triple, and its top byte is zero |
| VersionCodec.Decode | ios2catalyst.py:15-16 | total; each of the three components lies in 0..255 |
| VersionCodec.EncodeDecode | ios2catalyst.py:12-16 | decoding then re-encoding gives back every word whose top byte is clear (the other round-trip direction) |
| VersionCodec.EncodeInjective | ios2catalyst.py:12-13 | distinct in-range triples give distinct packed words |
| VersionCodec.MapOsVersion | ios2catalyst.py:25-33 | the result decodes to (11, 0, 0) when the input major is below 14 and to (major - 3, 0, 0) otherwise; minor and patch are 0 and the major lies in 11..252 |
| VersionCodec.MapBranchesAgreeAt14 | ios2catalyst.py:29-33 | at major 14 both branches give 11.0.0 |
| VersionCodec.MapDependsOnMajorOnly | ios2catalyst.py:27 | inputs with equal majors map to the same version; minor and patch are ignored |
| VersionCodec.MapMonotone | ios2catalyst.py:25-33 | a larger input major never gives a smaller output major |
| VersionCodec.MapTwiceIff | ios2catalyst.py:25-33 | mapping twice equals mapping once if and only if the input major is at most 14 |
| VersionCodec.MapExamples | ios2catalyst.py:29-33 | 17.0.0 maps to 14.0.0, 18.0.0 to 15.0.0, 15.0.0 to 12.0.0 and 12.4.1 to 11.0.0 |
| LoadCommands.PatchCommand | ios2catalyst.py:41-72 | the rewritten command keeps its size and its payload still fits its tag |
| LoadCommands.PatchCommands | ios2catalyst.py:40-72 | the rewritten list has as many commands as the original and every payload still fits its tag |
| LoadCommands.PatchCommandsAt | ios2catalyst.py:40 | the k-th command of the rewritten list is the rewrite of the k-th original command, so order is kept |
| LoadCommands.BuildVersionRewritten | ios2catalyst.py:53-72 | a command tagged LC_BUILD_VERSION keeps its tag, size and tool count and gets platform 6 and mapped minos and sdk, whatever its old platform |
| LoadCommands.MobileVersionMinRewritten | ios2catalyst.py:41-52 | an iPhoneOS, tvOS or watchOS version-min command is re-tagged LC_VERSION_MIN_MACOSX, keeps its size, and gets mapped version and sdk (the sdk step of lines 67-72 included) |
| LoadCommands.UnselectedUnchanged | ios2catalyst.py:41 | every command with a tag outside the four selected ones, LC_VERSION_MIN_MACOSX included, is left unchanged |
| LoadCommands.SelectedIsRewritten | ios2catalyst.py:41-57 | a selected command ends up tagged LC_BUILD_VERSION or LC_VERSION_MIN_MACOSX, and it is LC_BUILD_VERSION afterwards if and only if it was before |
| LoadCommands.PatchCommandTwiceIff | ios2catalyst.py:41-72 | rewriting one command twice equals rewriting it once if and only if it is not a build-version command or its minos and sdk majors are at most 14 |
| LoadCommands.PatchCommandsTwiceIff | ios2catalyst.py:40-72 | a second pass over a header changes nothing if and only if every build-version command had minos and sdk majors of at most 14 |
| LoadCommands.ConvertedVersionMinStable | ios2catalyst.py:41-44 | a converted version-min command is no longer selected, so a second pass leaves it unchanged |
| LoadCommands.BuildVersionNotIdempotent | ios2catalyst.py:53-72 | an iOS build-version command with minos and sdk 17.0.0 becomes platform 6 with 14.0.0 and, on a second pass, 11.0.0 |
| MachOPatcher.MachHeader.constructor | ios2catalyst.py:38 | a header built from a parsed command list holds exactly that list, in a fresh array |
| MachOPatcher.MachHeader.RewriteVersionCommands | ios2catalyst.py:40-72 | after the in-place loop the array holds PatchCommands of its old contents, and every payload still fits its tag |
| MachOPatcher.Splice | ios2catalyst.py:74-77 | the output starts with the header bytes h; when h is no longer than the original, the output is as long as the original and every byte at index ≥ \|h\| is the original's; otherwise the output is h |
| MachOPatcher.SpliceSameHeader | ios2catalyst.py:74-77 | writing back header bytes equal to the file's own prefix leaves the file byte-identical |
| MachOPatcher.PatchMachO | ios2catalyst.py:37-77 | the first header's commands become PatchCommands of the old ones, the result is Splice of the serialized new header and the original bytes, and no other header's commands change |
| MachOPatcher.SecondPassLeavesFileUnchanged | ios2catalyst.py:40-77 | re-patching the file a first pass wrote gives back the same bytes when every build-version minos and sdk major was at most 14 |

## Left out

- `adhoc_codesign` (ios2catalyst.py:18-23) and the signing call after the rewrite: they run an external `codesign` process and exit on failure.
- The command-line driver (ios2catalyst.py:83-120): argument checks, path existence, the recursive bundle walk, the filtering of "Unknown Mach-O header" errors and the exit codes. This is filesystem and process plumbing.
- Mach-O parsing and header serialization come from a library that is not part of this model. A parsed header is the `MachHeader` constructor's input. Its serialized bytes are the total function `serialize`, applied to the rewritten commands. The parser's guarantee that payloads fit their tags is the `Valid` precondition.
- The header is taken to be written from the start of the file, so the file position after writing is the length of `h`. The library's own offset handling for fat binaries is not modelled.
- `platform_name_from_int` and every printed message (ios2catalyst.py:9-10, 36, 43-72): these only produce diagnostic output.
- Reading the whole file into a buffer, and the open/truncate/write sequence: the file change is the byte-sequence function `Splice`.
- MachOPatcher.MachHeader.RewriteVersionCommands: the code mutates each command's structure object in place. The model replaces each array element with a new command value, so it does not model aliasing between command objects.
- VersionCodec.Decode: the components are 32-bit words, not unbounded integers. They are masked to a byte, so their values are the same.
- The `data` part of a parsed command (the bytes after its structure) is not modelled. The rewrite never touches it.
- MachOPatcher.PatchMachO: requires at least one parsed header. With an empty header list (a fat file with no architectures) `machFile.headers[0]` raises an IndexError at ios2catalyst.py:40. That happens before the file is opened for writing at line 74, so the file is left as it was and the driver prints the error (lines 100-102 and 112-114). This error path is not modelled.
- MachOPatcher.SecondPassLeavesFileUnchanged: assumes that the header the first pass wrote parses back as exactly the rewritten command list, and that one `serialize`, a function of the command list alone, serves both passes. This parse-back round trip belongs to the Mach-O library and is assumed, not proved.
