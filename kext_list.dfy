/**
 * The list of extensions bundled in the system boot kernel collection, read from the
 * line-split output of `kmutil inspect -V release --no-header -p <boot KC>`.
 */
module KextList {
  import opened Common
  import opened Text

  /** The line that opens a section of the inspection report. */
  const Marker: string := "Extension Information:"

  /** How many lines of the report are section markers (`out.count(Marker)`). */
  function MarkerCount(out: seq<string>): nat {
    if out == [] then 0
    else MarkerCount(out[..|out| - 1]) + (if out[|out| - 1] == Marker then 1 else 0)
  }

  /** The count is the marker's multiplicity among the report's lines. */
  lemma {:induction false} MarkerCountIsMultiplicity(out: seq<string>)
    ensures MarkerCount(out) == multiset(out)[Marker]
  {
    if out != [] {
      var n := |out| - 1;
      MarkerCountIsMultiplicity(out[..n]);
      assert out == out[..n] + [out[n]];
      assert multiset(out) == multiset(out[..n]) + multiset{out[n]};
    }
  }

  /** The indices of the section markers, in increasing order (`hdr_idx`). */
  function MarkerIndices(out: seq<string>): (idx: seq<nat>)
    ensures forall k :: 0 <= k < |idx| ==> idx[k] < |out| && out[idx[k]] == Marker
    ensures forall i :: 0 <= i < |out| && out[i] == Marker ==> i in idx
    ensures forall k, m :: 0 <= k < m < |idx| ==> idx[k] < idx[m]
    ensures |idx| == MarkerCount(out)
  {
    if out == [] then []
    else
      var n := |out| - 1;
      assert out == out[..n] + [out[n]];
      MarkerIndices(out[..n]) + (if out[n] == Marker then [n] else [])
  }

  /**
   * The first whitespace token of every line, in order (`[l.split()[0] for l in lines]`);
   * the first blank line makes it fail, reported at its index `offset + k` in the report.
   */
  function FirstTokens(lines: seq<string>, offset: nat): (r: Result<seq<string>>)
    ensures r.Success? <==> forall k :: 0 <= k < |lines| ==> !IsBlank(lines[k])
    ensures r.Success? ==>
      |r.value| == |lines| && forall k :: 0 <= k < |lines| ==> FirstToken(lines[k]) == Some(r.value[k])
    ensures r.Failure? ==>
      exists k :: 0 <= k < |lines| && IsBlank(lines[k]) && r.error == BlankLine(offset + k) &&
                  forall m :: 0 <= m < k ==> !IsBlank(lines[m])
  {
    if lines == [] then Success([])
    else
      match FirstToken(lines[0])
      case None => Failure(BlankLine(offset))
      case Some(t) =>
        var rest := FirstTokens(lines[1..], offset + 1);
        if rest.Failure? then
          BlankLater(lines, offset, rest.error);
          rest
        else
          TokensCons(lines, t, rest.value);
          Success([t] + rest.value)
  }

  /** A blank line among `lines[1..]`, the first one there, is the first blank line of `lines`. */
  lemma BlankLater(lines: seq<string>, offset: nat, e: Error)
    requires lines != [] && !IsBlank(lines[0])
    requires exists k :: 0 <= k < |lines[1..]| && IsBlank(lines[1..][k]) && e == BlankLine(offset + 1 + k) &&
                         forall m :: 0 <= m < k ==> !IsBlank(lines[1..][m])
    ensures exists k :: 0 <= k < |lines| && IsBlank(lines[k]) && e == BlankLine(offset + k) &&
                        forall m :: 0 <= m < k ==> !IsBlank(lines[m])
  {
    var k :| 0 <= k < |lines[1..]| && IsBlank(lines[1..][k]) && e == BlankLine(offset + 1 + k) &&
      forall m :: 0 <= m < k ==> !IsBlank(lines[1..][m]);
    assert lines[k + 1] == lines[1..][k];
    assert forall m :: 1 <= m < k + 1 ==> lines[m] == lines[1..][m - 1];
    assert IsBlank(lines[k + 1]) && forall m :: 0 <= m < k + 1 ==> !IsBlank(lines[m]);
  }

  /** The tokens of `lines[1..]`, after the token of `lines[0]`, are the tokens of `lines`. */
  lemma TokensCons(lines: seq<string>, t: string, ts: seq<string>)
    requires lines != [] && FirstToken(lines[0]) == Some(t)
    requires |ts| == |lines| - 1 && forall k :: 0 <= k < |ts| ==> FirstToken(lines[1..][k]) == Some(ts[k])
    ensures |[t] + ts| == |lines|
    ensures forall k :: 0 <= k < |lines| ==> FirstToken(lines[k]) == Some(([t] + ts)[k])
  {
    forall k | 0 <= k < |lines|
      ensures FirstToken(lines[k]) == Some(([t] + ts)[k])
    {
      if k > 0 {
        assert lines[k] == lines[1..][k - 1];
      }
    }
  }

  /**
   * `get_base_kexts` as written: with two markers the lines strictly between them, with one
   * marker the lines from the marker on (the marker line included), mapped to their first
   * tokens; any other marker count fails.
   */
  function ExtractBaseKextsAsWritten(out: seq<string>): (r: Result<seq<string>>)
    ensures MarkerCount(out) != 1 && MarkerCount(out) != 2 ==> r == Failure(BadMarkerCount)
    ensures MarkerCount(out) == 1 || MarkerCount(out) == 2 ==> r != Failure(BadMarkerCount)
  {
    var hdr := MarkerIndices(out);
    if |hdr| == 2 then FirstTokens(out[hdr[0] + 1..hdr[1]], hdr[0] + 1)
    else if |hdr| == 1 then FirstTokens(out[hdr[0]..], hdr[0])
    else Failure(BadMarkerCount)
  }

  /**
   * `get_base_kexts` with the one-marker case taking the lines after the marker, as the
   * two-marker case does; the rest of the model builds on this one.
   */
  function ExtractBaseKexts(out: seq<string>): (r: Result<seq<string>>)
    ensures MarkerCount(out) != 1 && MarkerCount(out) != 2 ==> r == Failure(BadMarkerCount)
    ensures MarkerCount(out) == 1 || MarkerCount(out) == 2 ==> r != Failure(BadMarkerCount)
  {
    var hdr := MarkerIndices(out);
    if |hdr| == 2 then FirstTokens(out[hdr[0] + 1..hdr[1]], hdr[0] + 1)
    else if |hdr| == 1 then FirstTokens(out[hdr[0] + 1..], hdr[0] + 1)
    else Failure(BadMarkerCount)
  }

  /** The two differ only on reports with exactly one marker. */
  lemma AsWrittenDiffersOnlyOnOneMarker(out: seq<string>)
    requires MarkerCount(out) != 1
    ensures ExtractBaseKextsAsWritten(out) == ExtractBaseKexts(out)
  {
  }

  /** The first three entries of a strictly increasing sequence are in order. */
  lemma SortedFront(idx: seq<nat>)
    requires forall k, m :: 0 <= k < m < |idx| ==> idx[k] < idx[m]
    ensures |idx| > 1 ==> idx[0] < idx[1]
    ensures |idx| > 2 ==> idx[1] < idx[2]
  {
  }
  /** A strictly increasing sequence whose members are exactly `i < j` is `[i, j]`. */
  lemma TwoMembers(idx: seq<nat>, i: nat, j: nat)
    requires i < j && i in idx && j in idx
    requires forall k :: 0 <= k < |idx| ==> idx[k] == i || idx[k] == j
    requires forall k, m :: 0 <= k < m < |idx| ==> idx[k] < idx[m]
    ensures idx == [i, j]
  {
    SortedFront(idx);
    var a :| 0 <= a < |idx| && idx[a] == i;
    var b :| 0 <= b < |idx| && idx[b] == j;
  }
  /** A strictly increasing sequence whose only member is `i` is `[i]`. */
  lemma OneMember(idx: seq<nat>, i: nat)
    requires i in idx
    requires forall k :: 0 <= k < |idx| ==> idx[k] == i
    requires forall k, m :: 0 <= k < m < |idx| ==> idx[k] < idx[m]
    ensures idx == [i]
  {
    SortedFront(idx);
  }

  /**
   * Exactly two markers, at `i < j`: the result is the first token of each line strictly
   * between them, in order; no marker line contributes a token.
   */
  lemma TwoMarkers(out: seq<string>, i: nat, j: nat)
    requires i < j < |out| && out[i] == Marker && out[j] == Marker
    requires forall k :: 0 <= k < |out| && out[k] == Marker ==> k == i || k == j
    ensures ExtractBaseKexts(out) == FirstTokens(out[i + 1..j], i + 1)
    ensures ExtractBaseKextsAsWritten(out) == FirstTokens(out[i + 1..j], i + 1)
    ensures var r := ExtractBaseKexts(out);
      r.Success? ==>
        |r.value| == j - i - 1 &&
        forall k :: 0 <= k < |r.value| ==> FirstToken(out[i + 1 + k]) == Some(r.value[k]) && out[i + 1 + k] != Marker
  {
    TwoMarkerIndices(out, i, j);
    TwoMarkersSection(out, i, j);
    TokensOfSlice(out, i + 1, j);
  }

  /** The section that two markers at `i < j` select is the lines strictly between them. */
  lemma TwoMarkersSection(out: seq<string>, i: nat, j: nat)
    requires i < j <= |out| && MarkerIndices(out) == [i, j]
    ensures ExtractBaseKexts(out) == FirstTokens(out[i + 1..j], i + 1)
    ensures ExtractBaseKextsAsWritten(out) == FirstTokens(out[i + 1..j], i + 1)
  {
  }

  /** Markers at `i < j` and nowhere else: the marker indices are `[i, j]`. */
  lemma TwoMarkerIndices(out: seq<string>, i: nat, j: nat)
    requires i < j < |out| && out[i] == Marker && out[j] == Marker
    requires forall k :: 0 <= k < |out| && out[k] == Marker ==> k == i || k == j
    ensures MarkerIndices(out) == [i, j]
  {
    var hdr := MarkerIndices(out);
    assert i in hdr && j in hdr;
    assert forall k :: 0 <= k < |hdr| ==> hdr[k] == i || hdr[k] == j;
    TwoMembers(hdr, i, j);
  }

  /** Read off a slice of the report, the tokens line up with the report's own lines. */
  lemma TokensOfSlice(out: seq<string>, lo: nat, hi: nat)
    requires lo <= hi <= |out|
    ensures var r := FirstTokens(out[lo..hi], lo);
      r.Success? ==>
        |r.value| == hi - lo &&
        forall k :: 0 <= k < |r.value| ==> FirstToken(out[lo + k]) == Some(r.value[k])
  {
    var r := FirstTokens(out[lo..hi], lo);
    if r.Success? {
      forall k | 0 <= k < |r.value|
        ensures FirstToken(out[lo + k]) == Some(r.value[k])
      {
        assert out[lo..hi][k] == out[lo + k];
      }
    }
  }

  /** A marker at `i` and nowhere else: the marker indices are `[i]`. */
  lemma OneMarkerIndex(out: seq<string>, i: nat)
    requires i < |out| && out[i] == Marker
    requires forall k :: 0 <= k < |out| && out[k] == Marker ==> k == i
    ensures MarkerIndices(out) == [i]
  {
    var hdr := MarkerIndices(out);
    assert i in hdr;
    assert forall k :: 0 <= k < |hdr| ==> hdr[k] == i;
    OneMember(hdr, i);
  }

  /**
   * Exactly one marker, at `i`: the list is the first token of every line after the marker,
   * so it has `|out| - i - 1` entries and no marker line contributes a token.
   */
  lemma OneMarker(out: seq<string>, i: nat)
    requires i < |out| && out[i] == Marker
    requires forall k :: 0 <= k < |out| && out[k] == Marker ==> k == i
    ensures ExtractBaseKexts(out) == FirstTokens(out[i + 1..], i + 1)
    ensures var r := ExtractBaseKexts(out);
      r.Success? ==>
        |r.value| == |out| - i - 1 &&
        forall k :: 0 <= k < |r.value| ==> FirstToken(out[i + 1 + k]) == Some(r.value[k]) && out[i + 1 + k] != Marker
  {
    OneMarkerIndex(out, i);
    OneMarkerSection(out, i);
    TokensOfSuffix(out, i + 1);
  }

  /** The section that a single marker at `i` selects is the lines after it. */
  lemma OneMarkerSection(out: seq<string>, i: nat)
    requires i < |out| && MarkerIndices(out) == [i]
    ensures ExtractBaseKexts(out) == FirstTokens(out[i + 1..], i + 1)
    ensures ExtractBaseKextsAsWritten(out) == FirstTokens(out[i..], i)
  {
  }

  /** `TokensOfSlice` for the lines from `lo` to the end. */
  lemma TokensOfSuffix(out: seq<string>, lo: nat)
    requires lo <= |out|
    ensures var r := FirstTokens(out[lo..], lo);
      r.Success? ==>
        |r.value| == |out| - lo &&
        forall k :: 0 <= k < |r.value| ==> FirstToken(out[lo + k]) == Some(r.value[k])
  {
    var r := FirstTokens(out[lo..], lo);
    if r.Success? {
      forall k | 0 <= k < |r.value|
        ensures FirstToken(out[lo + k]) == Some(r.value[k])
      {
        assert out[lo..][k] == out[lo + k];
      }
    }
  }

  /**
   * As written, with exactly one marker at `i`, the list is the first token of every line from
   * the marker on: it has `|out| - i` entries and its first is the marker's own "Extension".
   */
  lemma OneMarkerAsWritten(out: seq<string>, i: nat)
    requires i < |out| && out[i] == Marker
    requires forall k :: 0 <= k < |out| && out[k] == Marker ==> k == i
    ensures ExtractBaseKextsAsWritten(out) == FirstTokens(out[i..], i)
    ensures var r := ExtractBaseKextsAsWritten(out);
      r.Success? ==>
        |r.value| == |out| - i && r.value[0] == "Extension" &&
        forall k :: 0 <= k < |r.value| ==> FirstToken(out[i + k]) == Some(r.value[k])
  {
    OneMarkerIndex(out, i);
    OneMarkerSection(out, i);
    TokensOfSuffix(out, i);
    MarkerFirstToken();
  }

  /**
   * A one-section report `[Marker, id + " " + v]`: as written the list is `["Extension", id]`,
   * so "Extension" would be handed to the builder as an extension; corrected it is `[id]`.
   */
  lemma MarkerTokenLeaksAsWritten(id: string, v: string)
    requires IsIdentifier(id) && id != "Extension"
    ensures ExtractBaseKextsAsWritten([Marker, id + " " + v]) == Success(["Extension", id])
    ensures ExtractBaseKexts([Marker, id + " " + v]) == Success([id])
  {
    var out := [Marker, id + " " + v];
    NotMarkerLine(id, v);
    TokenBeforeSpace(id, v);
    OneMarkerIndex(out, 0);
    MarkerFirstToken();
    OneLine(out[1..], id);
    assert out[1..] == [id + " " + v];
    TwoLines(out[0..], "Extension", id);
  }

  /** One line whose first token is `a` tokenizes to `[a]`. */
  lemma OneLine(lines: seq<string>, a: string)
    requires |lines| == 1 && FirstToken(lines[0]) == Some(a)
    ensures FirstTokens(lines, 1) == Success([a])
  {
    assert !IsBlank(lines[0]);
    var r := FirstTokens(lines, 1);
    assert r.Success? && |r.value| == 1 && r.value[0] == a;
    assert r.value == [a];
  }

  /** Two lines whose first tokens are `a` and `b` tokenize to `[a, b]`. */
  lemma TwoLines(lines: seq<string>, a: string, b: string)
    requires |lines| == 2 && FirstToken(lines[0]) == Some(a) && FirstToken(lines[1]) == Some(b)
    ensures FirstTokens(lines, 0) == Success([a, b])
  {
    assert !IsBlank(lines[0]) && !IsBlank(lines[1]);
    var r := FirstTokens(lines, 0);
    assert r.Success? && |r.value| == 2 && r.value[0] == a && r.value[1] == b;
    assert r.value == [a, b];
  }

  /** The marker line's own first token is "Extension". */
  lemma MarkerFirstToken()
    ensures FirstToken(Marker) == Some("Extension")
  {
    assert Marker == "Extension" + " Information:";
    assert IsBlank(Marker[..0]);
    assert Marker[..9] == "Extension";
    assert forall k :: 0 <= k < 9 ==> !IsSpace(Marker[k]);
    FirstWordAt(Marker, 0, 9);
  }

  /** A line that starts with an identifier other than "Extension" is no section marker. */
  lemma NotMarkerLine(id: string, v: string)
    requires IsIdentifier(id) && id != "Extension"
    ensures id + " " + v != Marker
  {
    TokenBeforeSpace(id, v);
    MarkerFirstToken();
  }
}
