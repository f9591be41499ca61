/**
 * `generate_no_shim_kc` and `get_soc`: drop the serial shim from the base extension list and
 * lay out the `kmutil create` command line that rebuilds the boot kernel collection without it.
 */
module CollectionBuilder {
  import opened Common
  import opened Text
  import KextList

  /** The extension the rebuilt collection leaves out. */
  const Shim: string := "com.apple.driver.AppleSerialShim"

  /** `[k for k in kexts if k != Shim]`. */
  function WithoutShim(kexts: seq<string>): (r: seq<string>)
    ensures Shim !in r
    ensures |r| == |kexts| - multiset(kexts)[Shim]
    ensures forall x :: x != Shim ==> multiset(r)[x] == multiset(kexts)[x]
    ensures Shim !in kexts ==> r == kexts
  {
    if kexts == [] then []
    else
      assert kexts == [kexts[0]] + kexts[1..];
      (if kexts[0] == Shim then [] else [kexts[0]]) + WithoutShim(kexts[1..])
  }

  /** `a` is `b` with some entries deleted, the rest kept in their order. */
  predicate IsSubsequence<T(==)>(a: seq<T>, b: seq<T>)
    decreases |b|
  {
    a == [] || (b != [] && if a[0] == b[0] then IsSubsequence(a[1..], b[1..]) else IsSubsequence(a, b[1..]))
  }

  /** Filtering keeps the relative order of the extensions it retains. */
  lemma {:induction false} WithoutShimIsSubsequence(kexts: seq<string>)
    ensures IsSubsequence(WithoutShim(kexts), kexts)
  {
    if kexts != [] {
      WithoutShimIsSubsequence(kexts[1..]);
      var r := WithoutShim(kexts);
      if kexts[0] != Shim {
        assert r[0] == kexts[0] && r[1..] == WithoutShim(kexts[1..]);
      } else {
        assert r == WithoutShim(kexts[1..]);
        if r != [] {
          assert r[0] in r;
        }
      }
    }
  }

  /** The SoC tag of a kernel-version line: the text after its last '_', lowercased. */
  function SocTag(line: string): (tag: string)
    ensures |tag| <= |line|
    ensures '_' !in tag && forall k :: 0 <= k < |tag| ==> !IsAsciiUpper(tag[k])
  {
    LastField(line, '_');
    AsciiLowerKeeps(Last(SplitOn(line, '_')), '_');
    AsciiLower(Last(SplitOn(line, '_')))
  }

  /** `get_soc`: the SoC tag of the first line of `uname -v`'s output. */
  function GetSoc(unameOut: string): (r: Result<string>)
    ensures r.Failure? <==> unameOut == []
    ensures r.Failure? ==> r.error == EmptyVersionOutput
    ensures r.Success? ==> '_' !in r.value && forall k :: 0 <= k < |r.value| ==> !IsAsciiUpper(r.value[k])
  {
    match FirstLine(unameOut)
    case None => Failure(EmptyVersionOutput)
    case Some(line) => Success(SocTag(line))
  }

  /**
   * If the first version line is `p + t`, where `t` holds no '_' and `p` is empty or ends in
   * '_', the SoC tag is `t` lowercased.
   */
  lemma SocTagIsSuffixAfterLastUnderscore(unameOut: string, p: string, t: string)
    requires FirstLine(unameOut) == Some(p + t)
    requires '_' !in t
    requires p == [] || p[|p| - 1] == '_'
    ensures GetSoc(unameOut) == Success(AsciiLower(t))
  {
    LastFieldUnique(p + t, '_', p, t);
    if p != [] {
      assert p[|p| - 1] in p;
    } else {
      assert p + t == t;
    }
  }

  /** A first version line without any '_' is its own SoC tag, lowercased. */
  lemma SocTagWithoutUnderscore(unameOut: string, line: string)
    requires FirstLine(unameOut) == Some(line)
    requires '_' !in line
    ensures GetSoc(unameOut) == Success(AsciiLower(line))
  {
    assert [] + line == line;
    SocTagIsSuffixAfterLastUnderscore(unameOut, [], line);
  }

  /** The kernel binary matching the host SoC. */
  function KernelPath(soc: string): string {
    "/System/Library/Kernels/kernel.release." + soc
  }

  /** The fixed head of the `kmutil create` command line, up to and including "-x". */
  function KmutilCreatePrefix(soc: string): (args: seq<string>)
    ensures |args| == 17 && args[7] == KcNoShimPath && args[11] == KernelPath(soc) && args[16] == "-x"
  {
    [ "kmutil", "create",
      "-n", "boot",
      "-a", "arm64e",
      "-B", KcNoShimPath,
      "-V", "release",
      "-k", KernelPath(soc),
      "-r", "/System/Library/Extensions",
      "-r", "/System/Library/DriverExtensions",
      "-x" ]
  }

  /** `args` is the fixed head followed by one "-b" <id> pair per extension, in order. */
  predicate IsKmutilCreateArgs(args: seq<string>, soc: string, kexts: seq<string>) {
    |args| == 17 + 2 * |kexts| &&
    args[..17] == KmutilCreatePrefix(soc) &&
    forall i :: 0 <= i < |kexts| ==> args[17 + 2 * i] == "-b" && args[17 + 2 * i + 1] == kexts[i]
  }

  /** The `kmutil_args` list: the fixed head, then "-b" and the identifier appended per extension. */
  method KmutilCreateArgs(soc: string, kexts: seq<string>) returns (args: seq<string>)
    ensures IsKmutilCreateArgs(args, soc, kexts)
  {
    args := KmutilCreatePrefix(soc);
    for i := 0 to |kexts|
      invariant |args| == 17 + 2 * i
      invariant args[..17] == KmutilCreatePrefix(soc)
      invariant forall k :: 0 <= k < i ==> args[17 + 2 * k] == "-b" && args[17 + 2 * k + 1] == kexts[k]
    {
      args := args + ["-b"];
      args := args + [kexts[i]];
    }
  }

  /**
   * `generate_no_shim_kc` up to the privileged call: the argument vector handed to `sudo`,
   * or the error that aborts the run before the builder is invoked. The kext list is read
   * first and the SoC tag second, as in the program.
   */
  method GenerateNoShimKc(inspectOut: seq<string>, unameOut: string) returns (r: Result<seq<string>>)
    ensures KextList.ExtractBaseKexts(inspectOut).Failure? ==>
      r == Failure(KextList.ExtractBaseKexts(inspectOut).error)
    ensures KextList.ExtractBaseKexts(inspectOut).Success? && unameOut == [] ==>
      r == Failure(EmptyVersionOutput)
    ensures KextList.ExtractBaseKexts(inspectOut).Success? && unameOut != [] ==>
      r.Success? &&
      IsKmutilCreateArgs(r.value, GetSoc(unameOut).value, WithoutShim(KextList.ExtractBaseKexts(inspectOut).value))
  {
    var baseKexts := KextList.ExtractBaseKexts(inspectOut);
    if baseKexts.Failure? {
      return Failure(baseKexts.error);
    }
    var noShim := WithoutShim(baseKexts.value);
    var soc := GetSoc(unameOut);
    if soc.Failure? {
      return Failure(soc.error);
    }
    var args := KmutilCreateArgs(soc.value, noShim);
    return Success(args);
  }

  /**
   * `generate_no_shim_kc` exactly as written: the same steps over `get_base_kexts` as the program
   * has it, so a one-marker report also hands the marker's first token to the builder.
   */
  method GenerateNoShimKcAsWritten(inspectOut: seq<string>, unameOut: string) returns (r: Result<seq<string>>)
    ensures KextList.ExtractBaseKextsAsWritten(inspectOut).Failure? ==>
      r == Failure(KextList.ExtractBaseKextsAsWritten(inspectOut).error)
    ensures KextList.ExtractBaseKextsAsWritten(inspectOut).Success? && unameOut == [] ==>
      r == Failure(EmptyVersionOutput)
    ensures KextList.ExtractBaseKextsAsWritten(inspectOut).Success? && unameOut != [] ==>
      r.Success? &&
      IsKmutilCreateArgs(r.value, GetSoc(unameOut).value, WithoutShim(KextList.ExtractBaseKextsAsWritten(inspectOut).value))
  {
    var baseKexts := KextList.ExtractBaseKextsAsWritten(inspectOut);
    if baseKexts.Failure? {
      return Failure(baseKexts.error);
    }
    var noShim := WithoutShim(baseKexts.value);
    var soc := GetSoc(unameOut);
    if soc.Failure? {
      return Failure(soc.error);
    }
    var args := KmutilCreateArgs(soc.value, noShim);
    return Success(args);
  }

  /**
   * For a report with one marker followed by one extension line, the command line built as
   * written has 21 arguments and passes "-b" "Extension" before the real identifier; the
   * corrected one has 19 and passes only the identifier.
   */
  lemma AsWrittenPassesMarkerToken(id: string, v: string, soc: string, args: seq<string>, fixed: seq<string>)
    requires IsIdentifier(id) && id != "Extension" && id != Shim
    requires KextList.ExtractBaseKextsAsWritten([KextList.Marker, id + " " + v]).Success? &&
      IsKmutilCreateArgs(args, soc, WithoutShim(KextList.ExtractBaseKextsAsWritten([KextList.Marker, id + " " + v]).value))
    requires KextList.ExtractBaseKexts([KextList.Marker, id + " " + v]).Success? &&
      IsKmutilCreateArgs(fixed, soc, WithoutShim(KextList.ExtractBaseKexts([KextList.Marker, id + " " + v]).value))
    ensures |args| == 21 && args[17] == "-b" && args[18] == "Extension" && args[19] == "-b" && args[20] == id
    ensures |fixed| == 19 && fixed[17] == "-b" && fixed[18] == id
  {
    KextList.MarkerTokenLeaksAsWritten(id, v);
    assert ["Extension", id][1..] == [id];
    assert WithoutShim(["Extension", id]) == ["Extension", id];
    assert WithoutShim([id]) == [id];
  }

  /** The shim's identifier appears nowhere in a command line built from the filtered list. */
  lemma ShimNeverPassed(args: seq<string>, soc: string, kexts: seq<string>)
    requires IsKmutilCreateArgs(args, soc, WithoutShim(kexts))
    ensures Shim !in args
  {
    var ks := WithoutShim(kexts);
    var prefix := KmutilCreatePrefix(soc);
    assert KernelPath(soc)[0] != Shim[0];
    assert Shim !in prefix;
    forall n | 0 <= n < |args|
      ensures args[n] != Shim
    {
      if n < 17 {
        assert args[n] == args[..17][n] == prefix[n];
      } else {
        var i := (n - 17) / 2;
        assert n == 17 + 2 * i || n == 17 + 2 * i + 1;
        assert args[17 + 2 * i] == "-b" && args[17 + 2 * i + 1] == ks[i];
      }
    }
  }

  /**
   * A two-section report whose base section lists the shim between two other extensions
   * (each line an identifier, a space, then version text): the kext list is the three
   * identifiers and the builder gets the two others, in order.
   */
  lemma ShimExcludedFromTwoSectionReport(out: seq<string>, a: string, b: string)
    requires IsIdentifier(a) && IsIdentifier(b) && a != Shim && b != Shim
    requires a != "Extension" && b != "Extension"
    requires |out| >= 5 && out[0] == KextList.Marker && out[4] == KextList.Marker
    requires exists v :: out[1] == a + " " + v
    requires exists v :: out[2] == Shim + " " + v
    requires exists v :: out[3] == b + " " + v
    requires forall k :: 5 <= k < |out| ==> out[k] != KextList.Marker
    ensures KextList.ExtractBaseKexts(out) == Success([a, Shim, b])
    ensures WithoutShim(KextList.ExtractBaseKexts(out).value) == [a, b]
  {
    var va :| out[1] == a + " " + va;
    var vs :| out[2] == Shim + " " + vs;
    var vb :| out[3] == b + " " + vb;
    ShimIsIdentifier();
    TokenBeforeSpace(a, va);
    TokenBeforeSpace(Shim, vs);
    TokenBeforeSpace(b, vb);
    KextList.NotMarkerLine(a, va);
    KextList.NotMarkerLine(Shim, vs);
    KextList.NotMarkerLine(b, vb);
    ThreeLineSection(out, a, Shim, b);
    DropMiddleShim(a, b);
  }

  /** Markers at 0 and 4 only, around three lines with first tokens `a`, `s`, `b`: the list is `[a, s, b]`. */
  lemma ThreeLineSection(out: seq<string>, a: string, s: string, b: string)
    requires |out| >= 5 && out[0] == KextList.Marker && out[4] == KextList.Marker
    requires out[1] != KextList.Marker && out[2] != KextList.Marker && out[3] != KextList.Marker
    requires forall k :: 5 <= k < |out| ==> out[k] != KextList.Marker
    requires FirstToken(out[1]) == Some(a) && FirstToken(out[2]) == Some(s) && FirstToken(out[3]) == Some(b)
    ensures KextList.ExtractBaseKexts(out) == Success([a, s, b])
  {
    SliceOfThree(out);
    ThreeTokens(out[1..4], a, s, b);
    OnlyAtZeroAndFour(out, KextList.Marker);
    KextList.TwoMarkerIndices(out, 0, 4);
    KextList.TwoMarkersSection(out, 0, 4);
  }

  lemma DropMiddleShim(a: string, b: string)
    requires a != Shim && b != Shim
    ensures WithoutShim([a, Shim, b]) == [a, b]
  {
    assert [a, Shim, b][1..] == [Shim, b];
    assert [Shim, b][1..] == [b];
  }

  lemma OnlyAtZeroAndFour(out: seq<string>, m: string)
    requires |out| >= 5 && out[1] != m && out[2] != m && out[3] != m
    requires forall k :: 5 <= k < |out| ==> out[k] != m
    ensures forall k :: 0 <= k < |out| && out[k] == m ==> k == 0 || k == 4
  {
  }

  lemma SliceOfThree(out: seq<string>)
    requires |out| >= 4
    ensures out[1..4] == [out[1], out[2], out[3]]
  {
  }

  /** Three lines whose first tokens are `a`, `s` and `b` tokenize to `[a, s, b]`. */
  lemma ThreeTokens(body: seq<string>, a: string, s: string, b: string)
    requires |body| == 3
    requires FirstToken(body[0]) == Some(a) && FirstToken(body[1]) == Some(s) && FirstToken(body[2]) == Some(b)
    ensures KextList.FirstTokens(body, 1) == Success([a, s, b])
  {
    var r := KextList.FirstTokens(body, 1);
    assert !IsBlank(body[0]) && !IsBlank(body[1]) && !IsBlank(body[2]);
    assert r.Success? && |r.value| == 3;
    assert r.value[0] == a && r.value[1] == s && r.value[2] == b;
    assert r.value == [a, s, b];
    assert r == Success([a, s, b]);
  }

  /** The shim's name is printable ASCII throughout, so it is an identifier. */
  lemma ShimIsIdentifier()
    ensures IsIdentifier(Shim)
  {
    assert forall k :: 0 <= k < |Shim| ==> '!' <= Shim[k] <= '~';
  }
}
