# Rebuilding the boot kernel collection without AppleSerialShim

This is a Dafny model of the script `rebuild-kc-without-AppleSerialShim.py`. The script runs
on an Apple-silicon Mac and has two jobs.

1. It reads the list of extensions bundled in the boot kernel collection from
   `kmutil inspect`. It drops `com.apple.driver.AppleSerialShim` from that list. It then
   assembles the `kmutil create` command that builds `/Library/KernelCollections/kc.noshim.macho`
   from the remaining extensions, against the kernel for the host's SoC. The SoC tag is
   taken from `uname -v`.
2. It finds the APFS volume whose mounted snapshot is `/` in `diskutil list -plist`. It then
   writes an installer shell script next to the collection. Run later, that script looks up
   the volume's mount point by UUID and makes the new collection the boot collection with
   `kmutil configure-boot`.

The model takes every tool's output as a parameter:

- the `kmutil inspect` report as its lines (`seq<string>`);
- the `uname -v` text as a string;
- the `diskutil` property list as datatypes, where each dictionary key the program tests
  is an `Option` field.

Every exception the modelled functions raise on the tool outputs they are given becomes a `Failure` of `Common.Error`:
- `BadMarkerCount` for the `ValueError` in `get_base_kexts`;
- `BlankLine(i)` for the `IndexError` of `l.split()[0]` on the first blank line `i` of the report;
- `EmptyVersionOutput` for `splitlines()[0]` on empty output;
- `MissingKey(k)` for a `KeyError`;
- `NoRootVolume` for the `ValueError` in `get_sys_vol_uuid`.

Modules:

- `Common`: `Option`, `Result`, `Error` and the collection path.
- `Text`: the Python string operations the program relies on. These are `str.split()`,
  `split(sep)`, `splitlines()[0]` and `lower()`.
- `KextList`: `get_base_kexts`.
- `CollectionBuilder`: the shim filter, `get_soc` and the `kmutil create` argument vector.
  The argument vector is built by a loop method, as in the program.
- `VolumeResolver`: `get_sys_vol_uuid`. The program's three nested loops are a method, and
  that method is proved equal to a recursive specification.
- `InstallScript`: the installer's path, mode and text. The text is also parsed back to the
  UUID it was built from.

## Model

| member | source | states |
|---|---|---|
| Text.IsSpace | rebuild-kc-without-AppleSerialShim.py:62 | the characters Python's `str.split()` treats as whitespace (`str.isspace()` on one character); no contract of its own |
| Text.IsLineBreak | rebuild-kc-without-AppleSerialShim.py:43 | the characters at which `str.splitlines()` ends a line; no contract of its own |
| Text.Split | rebuild-kc-without-AppleSerialShim.py:62 | `str.split()`: the maximal runs of non-whitespace, in order; its properties are stated by `Text.SplitWords`, `Text.SplitEmptyIffBlank` and `Text.FirstWordAt` |
| Text.FirstToken | rebuild-kc-without-AppleSerialShim.py:62 | `l.split()[0]` exists exactly when the line is not blank; the token is non-empty and holds no whitespace |
| Text.SplitWords | rebuild-kc-without-AppleSerialShim.py:62 | every word of `str.split()` is non-empty and free of whitespace |
| Text.SplitEmptyIffBlank | rebuild-kc-without-AppleSerialShim.py:62 | `str.split()` gives an empty list if and only if the line is whitespace only |
| Text.FirstWordAt | rebuild-kc-without-AppleSerialShim.py:62 | the first word of a line is the maximal run of non-whitespace after its leading whitespace |
| Text.TokenBeforeSpace | rebuild-kc-without-AppleSerialShim.py:62 | a report line "identifier, space, version text" yields the identifier as its first token |
| Text.SplitOn | rebuild-kc-without-AppleSerialShim.py:43 | `split("_")` always gives at least one field, so `[-1]` cannot fail |
| Text.JoinSplitOn | rebuild-kc-without-AppleSerialShim.py:43 | joining the fields of `split(sep)` with `sep` gives back the string |
| Text.SplitOnFields | rebuild-kc-without-AppleSerialShim.py:43 | no field of `split(sep)` contains `sep` |
| Text.LastField | rebuild-kc-without-AppleSerialShim.py:43 | `split("_")[-1]` is a suffix of the line with no '_', preceded by '_' unless it is the whole line |
| Text.LastFieldUnique | rebuild-kc-without-AppleSerialShim.py:43 | that suffix is the only one with these properties |
| Text.FirstLine | rebuild-kc-without-AppleSerialShim.py:43 | `splitlines()[0]` fails exactly on empty text; otherwise it is the prefix up to the first line break |
| Text.AsciiLower | rebuild-kc-without-AppleSerialShim.py:43 | `lower()` keeps the length, lowers every ASCII capital by 32 code points and keeps every other character |
| Text.AsciiLowerKeeps | rebuild-kc-without-AppleSerialShim.py:43 | lowering neither adds nor removes a non-letter such as '_' |
| Text.AsciiLowerIdempotent | rebuild-kc-without-AppleSerialShim.py:43 | lowering twice is lowering once |
| KextList.MarkerIndices | rebuild-kc-without-AppleSerialShim.py:55 | `hdr_idx` lists, in increasing order, exactly the indices of the lines equal to "Extension Information:" |
| KextList.MarkerCountIsMultiplicity | rebuild-kc-without-AppleSerialShim.py:55 | `len(hdr_idx)` is the number of marker lines in the report |
| KextList.FirstTokens | rebuild-kc-without-AppleSerialShim.py:62 | the comprehension succeeds exactly when no line is blank, with one token per line in order; otherwise it fails at the first blank line, at that line's index in the report |
| KextList.ExtractBaseKextsAsWritten | rebuild-kc-without-AppleSerialShim.py:55-62 | `get_base_kexts` as written raises the marker-count error exactly when the count is neither 1 nor 2 |
| KextList.ExtractBaseKexts | rebuild-kc-without-AppleSerialShim.py:55-62 | the same error behaviour for the corrected definition |
| KextList.AsWrittenDiffersOnlyOnOneMarker | rebuild-kc-without-AppleSerialShim.py:56-61 | the as-written and corrected definitions agree on every report without exactly one marker |
| KextList.TwoMarkerIndices | rebuild-kc-without-AppleSerialShim.py:55 | with markers exactly at i < j, `hdr_idx == [i, j]` |
| KextList.TwoMarkersSection | rebuild-kc-without-AppleSerialShim.py:56-57 | `hdr_idx == [i, j]` selects the lines strictly between i and j, as written and corrected alike |
| KextList.TwoMarkers | rebuild-kc-without-AppleSerialShim.py:55-62 | two markers: as written and corrected alike, the result is the tokens of the lines strictly between them, one per line, and none of those lines is a marker |
| KextList.OneMarkerIndex | rebuild-kc-without-AppleSerialShim.py:55 | with a marker at i only, `hdr_idx == [i]` |
| KextList.OneMarkerSection | rebuild-kc-without-AppleSerialShim.py:58-59 | `hdr_idx == [i]` selects the lines from i on (as written) or after i (corrected) |
| KextList.OneMarker | rebuild-kc-without-AppleSerialShim.py:55-62 | corrected one-marker case: the tokens of the lines after the marker, one per line, none of them a marker |
| KextList.OneMarkerAsWritten | rebuild-kc-without-AppleSerialShim.py:55-62 | as written, one marker: one token per line from the marker on, and the first token is always "Extension" |
| KextList.MarkerTokenLeaksAsWritten | rebuild-kc-without-AppleSerialShim.py:58-62 | a one-marker report `[marker, "<id> <version>"]` yields `["Extension", id]` as written and `[id]` corrected |
| KextList.MarkerFirstToken | rebuild-kc-without-AppleSerialShim.py:55-62 | the marker line's first token is "Extension" |
| KextList.NotMarkerLine | rebuild-kc-without-AppleSerialShim.py:55 | an extension line whose identifier is not "Extension" is never mistaken for a marker |
| CollectionBuilder.WithoutShim | rebuild-kc-without-AppleSerialShim.py:68 | the filtered list lacks the shim, keeps every other identifier with its multiplicity, and is unchanged when there is no shim |
| CollectionBuilder.WithoutShimIsSubsequence | rebuild-kc-without-AppleSerialShim.py:68 | filtering keeps the relative order of the retained identifiers |
| CollectionBuilder.SocTag | rebuild-kc-without-AppleSerialShim.py:43 | the `split("_")[-1].lower()` chain on one line: a tag no longer than the line, with no '_' and no ASCII capital |
| CollectionBuilder.GetSoc | rebuild-kc-without-AppleSerialShim.py:42-43 | fails exactly on empty `uname -v` output; otherwise the tag holds no '_' and no ASCII capital |
| CollectionBuilder.SocTagIsSuffixAfterLastUnderscore | rebuild-kc-without-AppleSerialShim.py:42-43 | for a first line `p + t` where `p` is empty or ends in '_' and `t` has no '_', the tag is `t` lowered |
| CollectionBuilder.SocTagWithoutUnderscore | rebuild-kc-without-AppleSerialShim.py:42-43 | a first line without '_' is its own tag, lowered |
| CollectionBuilder.KmutilCreatePrefix | rebuild-kc-without-AppleSerialShim.py:69-87 | the 17 fixed arguments, with the collection path at index 7, the kernel for the SoC at index 11 and "-x" last |
| CollectionBuilder.KmutilCreateArgs | rebuild-kc-without-AppleSerialShim.py:69-90 | the vector is the 17 fixed arguments, with the kernel for the SoC at index 11, followed by one "-b", identifier pair per extension in order |
| CollectionBuilder.GenerateNoShimKc | rebuild-kc-without-AppleSerialShim.py:66-91 | a kext-list error aborts first, then an empty `uname` output; otherwise the vector handed to `sudo` is built from the filtered list and the SoC tag |
| CollectionBuilder.GenerateNoShimKcAsWritten | rebuild-kc-without-AppleSerialShim.py:66-91 | the same steps over `get_base_kexts` as written: a kext-list error aborts first, then an empty `uname` output; otherwise the vector is built from the as-written list |
| CollectionBuilder.AsWrittenPassesMarkerToken | rebuild-kc-without-AppleSerialShim.py:59-90 | for a one-marker report with one extension line, the as-written vector has 21 arguments with "-b", "Extension" at 17-18 before the identifier; the corrected one has 19 |
| CollectionBuilder.ShimNeverPassed | rebuild-kc-without-AppleSerialShim.py:68-90 | the shim's identifier appears nowhere in the vector |
| CollectionBuilder.ThreeLineSection | rebuild-kc-without-AppleSerialShim.py:55-62 | markers at lines 0 and 4 only, around three non-blank lines: the kext list is their three first tokens |
| CollectionBuilder.ShimExcludedFromTwoSectionReport | rebuild-kc-without-AppleSerialShim.py:55-90 | a report listing the shim between two other extensions yields those three identifiers, and the builder receives only the other two, in order |
| VolumeResolver.FirstRootVolume | rebuild-kc-without-AppleSerialShim.py:99-104 | none exactly when no volume has a snapshot mounted on "/"; otherwise the first such volume |
| VolumeResolver.FirstRootVolumeOnDisks | rebuild-kc-without-AppleSerialShim.py:96-104 | none exactly when no volume of any disk has a root snapshot, a disk without "APFSVolumes" counting as none |
| VolumeResolver.ResolveRootVolume | rebuild-kc-without-AppleSerialShim.py:94-105 | the recursive first-match specification the loops are proved equal to; it fails only with the two missing-key errors or the no-root-volume error, and succeeds only if the listing has "AllDisksAndPartitions" |
| VolumeResolver.GetSysVolUuid | rebuild-kc-without-AppleSerialShim.py:94-105 | the nested loops, with their skips and early return, give exactly the result of the recursive first-match specification |
| VolumeResolver.RootFoundAt | rebuild-kc-without-AppleSerialShim.py:102-104 | a root snapshot met at disk d, volume v, with no root snapshot before it, makes the answer that volume's UUID or the missing-key error |
| VolumeResolver.VolumeStep | rebuild-kc-without-AppleSerialShim.py:99-101 | one volume-loop step: the volume itself if it has a root snapshot, otherwise the search continues with the next volume |
| VolumeResolver.DiskStep | rebuild-kc-without-AppleSerialShim.py:96-98 | one disk-loop step: that disk's first root volume if any, otherwise the search continues with the next disk |
| VolumeResolver.FirstMatchWins | rebuild-kc-without-AppleSerialShim.py:96-104 | the first root-snapshot volume in disk order, then volume order, is the one whose UUID is returned |
| VolumeResolver.FirstInVolumes | rebuild-kc-without-AppleSerialShim.py:99-104 | within one disk, the first volume with a root snapshot is the one found |
| VolumeResolver.NoRootMeansFailure | rebuild-kc-without-AppleSerialShim.py:105 | with no snapshot mounted on "/" the resolver fails |
| VolumeResolver.SuccessHasRootSnapshot | rebuild-kc-without-AppleSerialShim.py:102-104 | a returned UUID always belongs to a volume that has a snapshot mounted on "/" |
| VolumeResolver.FoundOnSomeDisk | rebuild-kc-without-AppleSerialShim.py:96-104 | the volume found is one of the listed volumes and has a root snapshot |
| VolumeResolver.SingleRootSnapshot | rebuild-kc-without-AppleSerialShim.py:94-104 | one disk, one volume, one snapshot on "/": the answer is that volume's UUID |
| InstallScript.ScriptBody | rebuild-kc-without-AppleSerialShim.py:111-126 | the f-string: fixed text before the UUID, the UUID, fixed text after it; its layout is stated by `InstallScript.ScriptOpening`, `InstallScript.DiskutilLineNamesVolume` and `InstallScript.ScriptClosing` |
| InstallScript.GenerateInstallScript | rebuild-kc-without-AppleSerialShim.py:108-129 | the installer lands at the collection path plus ".installer.sh", its mode is exactly 0o755 (executable by owner, group and others), and its text determines the UUID |
| InstallScript.ScriptUuidRoundTrip | rebuild-kc-without-AppleSerialShim.py:111-126 | reading the UUID back from a generated script gives the UUID it was generated for |
| InstallScript.ScriptUuidExact | rebuild-kc-without-AppleSerialShim.py:111-126 | the reader accepts a text with a given UUID exactly when that text is the generated script for it |
| InstallScript.ScriptBodyInjective | rebuild-kc-without-AppleSerialShim.py:111-126 | different UUIDs give different scripts |
| InstallScript.ScriptOpening | rebuild-kc-without-AppleSerialShim.py:112-119 | the script opens with the bash shebang, the errexit, nounset, pipefail and xtrace options and the `mktemp` line, each a whole line at its offset |
| InstallScript.DiskutilLineNamesVolume | rebuild-kc-without-AppleSerialShim.py:120 | for a UUID without a newline, the line after those is `diskutil info -plist <uuid> > ${info_tmp_path}` |
| InstallScript.ScriptClosing | rebuild-kc-without-AppleSerialShim.py:121-126 | in order, the mount-point lookup, the message and `kmutil configure-boot` on the rebuilt collection follow as whole lines, and the text ends in a newline |
| InstallScript.ConfigureBootLineNamesCollection | rebuild-kc-without-AppleSerialShim.py:125 | the configure-boot line names the same collection path that `kmutil create` writes |

## Left out

- `run_cmd`, `gen_cmd` and `subprocess`: the `CalledProcessError` of line 22, the `AssertionError` of line 32 and the `AttributeError` on `.out` after a failed decode (lines 24-26) are not modelled; the model does not run commands, log them or decode output. Each tool's output is a parameter, and a non-zero exit status is not modelled.
- `plistlib`: the listing is given already decoded, and only string values are modelled for the keys the program reads.
- `tempfile`, `os.fchmod` and `sudo mv`: the installer is a value (path, text, mode). Writing it, its temporary name and the move are not modelled, because they are file-system effects.
- `sudo kmutil create`: the model stops at the argument vector, because the call is a foreign process.
- What the installer does when it runs (`diskutil info`, PlistBuddy, `kmutil configure-boot`) is outside the program and is not modelled.
- The module-level calls at lines 132-134 only sequence `GenerateNoShimKc`, `GetSysVolUuid` and `GenerateInstallScript`, so they have no separate member.
- Text.AsciiLower: weaker than Python's `str.lower()`, which also lowers non-ASCII letters; the model lowers only 'A'-'Z', because Unicode case tables are not modelled.
- CollectionBuilder.GetSoc: inherits that ASCII-only lowering.
- VolumeResolver.GetSysVolUuid: a missing "AllDisksAndPartitions" or "VolumeUUID" key is `Failure(MissingKey(..))` instead of a `KeyError`. A plist value of the wrong type is not modelled.
- CollectionBuilder.GenerateNoShimKc: builds on the corrected `KextList.ExtractBaseKexts` (see Findings), so for a one-marker report it describes the intended list; `CollectionBuilder.GenerateNoShimKcAsWritten` is the program as written.

## Findings

| source | as written | input that shows it | evidently intended | confidence | as-written member | corrected member |
|---|---|---|---|---|---|---|
| rebuild-kc-without-AppleSerialShim.py:59 | with one marker, `out[hdr_idx[0]:]` keeps the marker line, so "Extension" (the first token of "Extension Information:") is added to the base list | `["Extension Information:", "com.example.kext 1.0"]` gives `["Extension", "com.example.kext"]` | `out[hdr_idx[0] + 1:]`, skipping the marker as the two-marker branch at line 57 does | medium; not executed | KextList.MarkerTokenLeaksAsWritten | KextList.OneMarker |
