/**
 * `generate_no_shim_kc_install_script`: the text of the shell script that, run later, looks up
 * the resolved volume's mount point by UUID and makes the rebuilt collection the active one.
 */
module InstallScript {
  import opened Common

  /** Where the installer is moved to: next to the rebuilt collection. */
  const ScriptPath: string := KcNoShimPath + ".installer.sh"

  /** The permission bits the installer is given (octal 755). */
  const ScriptMode: nat := 0x1ED

  /** A double quote, as the shell sees it. */
  const Dq: string := "\""

  /** The lines of the script, as the program writes them. */
  const Shebang: string := "#!/usr/bin/env bash"
  const SetErrexit: string := "set -o errexit"
  const SetNounset: string := "set -o nounset"
  const SetPipefail: string := "set -o pipefail"
  const SetXtrace: string := "set -o xtrace"
  const TempFileLine: string := "info_tmp_path=$(mktemp)"
  const DiskutilPrefix: string := "diskutil info -plist "
  const DiskutilSuffix: string := " > ${info_tmp_path}"
  const MountPointLine: string :=
    "mount_point=$(/usr/libexec/PlistBuddy -c " + Dq + "Print MountPoint" + Dq + " ${info_tmp_path})"
  const EchoLine: string :=
    "{ echo " + Dq + "Installing to " + Dq + "${mount_point}" + Dq + Dq + "; } 2> /dev/null"
  const ConfigureBootLine: string := ConfigureBootCommand("/Library/KernelCollections/kc.noshim.macho")

  /** The `kmutil configure-boot` command that activates collection `kc` on the mounted volume. */
  function ConfigureBootCommand(kc: string): string {
    "kmutil configure-boot -c " + Dq + "${mount_point}" + kc + Dq + " -C -v " + Dq + "${mount_point}" + Dq
  }

  /** The lines before the `diskutil info` line, each ended by a newline. */
  const HeadLines: string :=
    Shebang + "\n\n" + SetErrexit + "\n" + SetNounset + "\n" + SetPipefail + "\n" + SetXtrace + "\n\n" +
    TempFileLine + "\n"

  /** The lines after the `diskutil info` line, each begun by a newline. */
  const TailLines: string :=
    "\n" + MountPointLine + "\n\n" + EchoLine + "\n\n" + ConfigureBootLine + "\n"

  /** The text before the UUID. */
  const ScriptHead: string := HeadLines + DiskutilPrefix

  /** The text after the UUID. */
  const ScriptTail: string := DiskutilSuffix + TailLines

  /** The script body: the one place the volume UUID enters is the `diskutil info` line. */
  function ScriptBody(volUuid: string): string {
    ScriptHead + volUuid + ScriptTail
  }

  /** The installer file the program leaves behind. */
  datatype ScriptFile = ScriptFile(path: string, body: string, mode: nat)

  /** Read the UUID back out of a script body; `None` for text this emitter cannot produce. */
  function ScriptUuid(body: string): Option<string> {
    if |body| >= |ScriptHead| + |ScriptTail| && body[..|ScriptHead|] == ScriptHead &&
       body[|body| - |ScriptTail|..] == ScriptTail
    then Some(body[|ScriptHead|..|body| - |ScriptTail|])
    else None
  }

  /** Owner, group and others may all execute a file with these permission bits. */
  predicate ExecutableByAll(mode: nat) {
    (mode / 64) % 2 == 1 && (mode / 8) % 2 == 1 && mode % 2 == 1
  }

  /** `s` has a whole line equal to `line` starting at index `i`. */
  predicate LineAt(s: string, i: nat, line: string) {
    '\n' !in line && i + |line| <= |s| && s[i..i + |line|] == line &&
    (i == 0 || s[i - 1] == '\n') && (i + |line| == |s| || s[i + |line|] == '\n')
  }

  /**
   * The installer for a volume: placed at `ScriptPath`, executable by all, and its body
   * determines the UUID it was generated for.
   */
  function GenerateInstallScript(volUuid: string): (f: ScriptFile)
    ensures f.path == KcNoShimPath + ".installer.sh"
    ensures f.mode == 0x1ED && ExecutableByAll(f.mode)
    ensures ScriptUuid(f.body) == Some(volUuid)
  {
    ScriptUuidRoundTrip(volUuid);
    ScriptFile(ScriptPath, ScriptBody(volUuid), ScriptMode)
  }

  /** Reading the UUID back from a generated body gives the UUID it was generated from. */
  lemma ScriptUuidRoundTrip(volUuid: string)
    ensures ScriptUuid(ScriptBody(volUuid)) == Some(volUuid)
  {
    var body := ScriptBody(volUuid);
    assert body[..|ScriptHead|] == ScriptHead;
    assert body[|body| - |ScriptTail|..] == ScriptTail;
    assert body[|ScriptHead|..|body| - |ScriptTail|] == volUuid;
  }

  /** The body is a function of the UUID alone, and different UUIDs give different bodies. */
  lemma ScriptBodyInjective(u1: string, u2: string)
    ensures ScriptBody(u1) == ScriptBody(u2) <==> u1 == u2
  {
    ScriptUuidRoundTrip(u1);
    ScriptUuidRoundTrip(u2);
  }

  /** The other direction of the round trip: the parser accepts exactly the generated bodies. */
  lemma ScriptUuidExact(body: string, volUuid: string)
    ensures ScriptUuid(body) == Some(volUuid) <==> body == ScriptBody(volUuid)
  {
    if ScriptUuid(body) == Some(volUuid) {
      var n := |body|;
      assert body == body[..|ScriptHead|] + body[|ScriptHead|..n - |ScriptTail|] + body[n - |ScriptTail|..];
    }
    ScriptUuidRoundTrip(volUuid);
  }

  /** `p + u + s` is the line at `|h|` of `(h + p) + u + (s + t)` when `h` ends and `t` begins with a newline. */
  lemma LineInMiddle(h: string, p: string, u: string, s: string, t: string)
    requires h == [] || h[|h| - 1] == '\n'
    requires '\n' !in p && '\n' !in u && '\n' !in s
    requires t == [] || t[0] == '\n'
    ensures LineAt((h + p) + u + (s + t), |h|, p + u + s)
  {
    var body := (h + p) + u + (s + t);
    var line := p + u + s;
    assert body == h + line + t;
    assert body[|h|..|h| + |line|] == line;
    assert |h| > 0 ==> body[|h| - 1] == h[|h| - 1];
    assert |t| > 0 ==> body[|h| + |line|] == t[0];
  }

  /** A line of `x` that a newline follows stays a line, at the same place, when text is appended. */
  lemma ExtendRight(x: string, y: string, i: nat, l: string)
    requires LineAt(x, i, l) && i + |l| < |x|
    ensures LineAt(x + y, i, l)
  {
    assert (x + y)[i..i + |l|] == x[i..i + |l|];
    assert (x + y)[i + |l|] == x[i + |l|];
    assert i > 0 ==> (x + y)[i - 1] == x[i - 1];
  }

  /** A line of `y` that a newline precedes stays a line, shifted by `|x|`, in `s == x + y`. */
  lemma ExtendLeft(x: string, y: string, s: string, i: nat, j: nat, l: string)
    requires LineAt(y, i, l) && 0 < i
    requires s == x + y && j == |x| + i
    ensures LineAt(s, j, l)
  {
    assert s[j..j + |l|] == y[i..i + |l|];
    assert s[j - 1] == y[i - 1];
    assert j + |l| < |s| ==> s[j + |l|] == y[i + |l|];
  }

  /** The last character of `x + y` is that of `y`. */
  lemma LastOfAppend(x: string, y: string)
    requires y != []
    ensures (x + y)[|x + y| - 1] == y[|y| - 1]
  {
  }

  /** Concatenation regrouped; called on the exact terms of the body to avoid expanding its literals. */
  lemma Assoc(a: string, b: string, c: string)
    ensures a + b + c == a + (b + c)
  {
  }

  /** The fixed text before the `diskutil info` line has 106 characters and ends with a newline. */
  lemma HeadLinesEnd()
    ensures |HeadLines| == 106 && HeadLines[105] == '\n'
  {
  }

  /** Where each line of the fixed head starts (lines 1 and 6 are empty). */
  lemma HeadLine0()
    ensures LineAt(HeadLines, 0, Shebang)
  {
  }

  lemma HeadLine2()
    ensures LineAt(HeadLines, 21, SetErrexit)
  {
  }

  lemma HeadLine3()
    ensures LineAt(HeadLines, 36, SetNounset)
  {
  }

  lemma HeadLine4()
    ensures LineAt(HeadLines, 51, SetPipefail)
  {
  }

  lemma HeadLine5()
    ensures LineAt(HeadLines, 67, SetXtrace)
  {
  }

  lemma HeadLine7()
    ensures LineAt(HeadLines, 82, TempFileLine)
  {
  }

  /** The fixed tail begins and ends with a newline; the fixed parts of the `diskutil info` line hold none. */
  lemma TailEnds()
    ensures TailLines[0] == '\n' && TailLines[|TailLines| - 1] == '\n'
    ensures '\n' !in DiskutilPrefix && '\n' !in DiskutilSuffix
  {
  }

  /** The shape of the fixed text after the `diskutil info` line, for any three newline-free lines. */
  lemma TailShape(m: string, e: string, c: string)
    requires '\n' !in m && '\n' !in e && '\n' !in c
    ensures var t := "\n" + m + "\n\n" + e + "\n\n" + c + "\n";
      && LineAt(t, 1, m)
      && LineAt(t, |m| + 3, e)
      && LineAt(t, |m| + |e| + 5, c)
  {
    var t := "\n" + m + "\n\n" + e + "\n\n" + c + "\n";
    assert t[1..1 + |m|] == m;
    assert t[|m| + 3..|m| + 3 + |e|] == e;
    assert t[|m| + |e| + 5..|m| + |e| + 5 + |c|] == c;
  }

  /** The lines after the `diskutil info` line hold no newline. */
  lemma MountPointLineNoNewline()
    ensures '\n' !in MountPointLine
  {
  }

  lemma EchoLineNoNewline()
    ensures '\n' !in EchoLine
  {
  }

  lemma ConfigureBootNoNewline(kc: string)
    requires '\n' !in kc
    ensures '\n' !in ConfigureBootCommand(kc)
  {
    assert '\n' !in "kmutil configure-boot -c " && '\n' !in "${mount_point}" && '\n' !in " -C -v ";
  }

  /** The collection path written into the script is the one the tool builds. */
  lemma ConfigureBootLineNamesCollection()
    ensures ConfigureBootLine == ConfigureBootCommand(KcNoShimPath)
  {
  }

  /** The lines of the fixed text after the `diskutil info` line. */
  lemma TailLinesLayout()
    ensures TailLines != [] && TailLines[|TailLines| - 1] == '\n'
    ensures LineAt(TailLines, 1, MountPointLine)
    ensures LineAt(TailLines, |MountPointLine| + 3, EchoLine)
    ensures LineAt(TailLines, |MountPointLine| + |EchoLine| + 5, ConfigureBootCommand(KcNoShimPath))
  {
    TailEnds();
    MountPointLineNoNewline();
    EchoLineNoNewline();
    ConfigureBootNoNewline("/Library/KernelCollections/kc.noshim.macho");
    TailShape(MountPointLine, EchoLine, ConfigureBootLine);
    ConfigureBootLineNamesCollection();
  }

  /** Three lines of `y`, and its final newline, carry over to `s == x + y`, shifted by `|x|`. */
  lemma ShiftedLines(x: string, y: string, s: string, m: string, e: string, c: string)
    requires s == x + y
    requires LineAt(y, 1, m) && LineAt(y, |m| + 3, e) && LineAt(y, |m| + |e| + 5, c)
    requires y != [] && y[|y| - 1] == '\n'
    ensures LineAt(s, |x| + 1, m) && LineAt(s, |x| + |m| + 3, e) && LineAt(s, |x| + |m| + |e| + 5, c)
    ensures s[|s| - 1] == '\n'
  {
    ExtendLeft(x, y, s, 1, |x| + 1, m);
    ExtendLeft(x, y, s, |m| + 3, |x| + |m| + 3, e);
    ExtendLeft(x, y, s, |m| + |e| + 5, |x| + |m| + |e| + 5, c);
    LastOfAppend(x, y);
  }

  /** `ShiftedLines` for a body laid out as `(h + u) + (p + y)`. */
  lemma ClosingShape(h: string, u: string, p: string, y: string, m: string, e: string, c: string)
    requires LineAt(y, 1, m) && LineAt(y, |m| + 3, e) && LineAt(y, |m| + |e| + 5, c)
    requires y != [] && y[|y| - 1] == '\n'
    ensures var s := (h + u) + (p + y);
      var t := |h| + |u| + |p|;
      && LineAt(s, t + 1, m) && LineAt(s, t + |m| + 3, e) && LineAt(s, t + |m| + |e| + 5, c)
      && s[|s| - 1] == '\n'
  {
    Assoc(h + u, p, y);
    ShiftedLines(h + u + p, y, (h + u) + (p + y), m, e, c);
  }

  /** The shebang, the four shell options and the temporary file open the script, in that order. */
  lemma ScriptOpening(volUuid: string)
    ensures var body := ScriptBody(volUuid);
      && LineAt(body, 0, Shebang)
      && LineAt(body, 21, SetErrexit)
      && LineAt(body, 36, SetNounset)
      && LineAt(body, 51, SetPipefail)
      && LineAt(body, 67, SetXtrace)
      && LineAt(body, 82, TempFileLine)
  {
    var body := ScriptBody(volUuid);
    HeadLinesEnd();
    HeadLine0();
    HeadLine2();
    HeadLine3();
    HeadLine4();
    HeadLine5();
    HeadLine7();
    Assoc(HeadLines, DiskutilPrefix, volUuid);
    Assoc(HeadLines, DiskutilPrefix + volUuid, ScriptTail);
    var rest := DiskutilPrefix + volUuid + ScriptTail;
    assert body == HeadLines + rest;
    ExtendRight(HeadLines, rest, 0, Shebang);
    ExtendRight(HeadLines, rest, 21, SetErrexit);
    ExtendRight(HeadLines, rest, 36, SetNounset);
    ExtendRight(HeadLines, rest, 51, SetPipefail);
    ExtendRight(HeadLines, rest, 67, SetXtrace);
    ExtendRight(HeadLines, rest, 82, TempFileLine);
  }

  /** For a UUID without a newline, line 106 of the script is `diskutil info -plist <uuid> > ${info_tmp_path}`. */
  lemma DiskutilLineNamesVolume(volUuid: string)
    requires '\n' !in volUuid
    ensures LineAt(ScriptBody(volUuid), 106, DiskutilPrefix + volUuid + DiskutilSuffix)
  {
    HeadLinesEnd();
    TailEnds();
    LineInMiddle(HeadLines, DiskutilPrefix, volUuid, DiskutilSuffix, TailLines);
  }

  /**
   * After the `diskutil info` line come the mount point lookup, the message and `kmutil
   * configure-boot` on the collection the tool built, in that order; the text ends with a newline.
   */
  lemma ScriptClosing(volUuid: string)
    ensures var body := ScriptBody(volUuid);
      var t := |ScriptHead| + |volUuid| + |DiskutilSuffix|;
      && LineAt(body, t + 1, MountPointLine)
      && LineAt(body, t + |MountPointLine| + 3, EchoLine)
      && LineAt(body, t + |MountPointLine| + |EchoLine| + 5, ConfigureBootCommand(KcNoShimPath))
      && body[|body| - 1] == '\n'
  {
    var body := ScriptBody(volUuid);
    TailLinesLayout();
    ClosingShape(ScriptHead, volUuid, DiskutilSuffix, TailLines, MountPointLine, EchoLine,
                 ConfigureBootCommand(KcNoShimPath));
  }
}
