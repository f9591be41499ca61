/**
 * The few Python string operations the program relies on, written out over `seq<char>`:
 * `str.split()` (whitespace), `str.split(sep)`, `str.splitlines()[0]` and ASCII `str.lower()`.
 */
module Text {
  import opened Common

  /** Python's notion of whitespace for `str.split()` (`str.isspace()` on one character). */
  predicate IsSpace(c: char) {
    ('\t' <= c <= '\r') || ('\U{1C}' <= c <= ' ') || c == '\U{85}' || c == '\U{A0}' || c == '\U{1680}'
    || ('\U{2000}' <= c <= '\U{200A}') || c == '\U{2028}' || c == '\U{2029}' || c == '\U{202F}'
    || c == '\U{205F}' || c == '\U{3000}'
  }

  /** The characters at which `str.splitlines()` ends a line. */
  predicate IsLineBreak(c: char) {
    c == '\n' || c == '\r' || c == '\U{0B}' || c == '\U{0C}' || ('\U{1C}' <= c <= '\U{1E}')
    || c == '\U{85}' || c == '\U{2028}' || c == '\U{2029}'
  }

  /** A line made of whitespace only (the empty line included). */
  predicate IsBlank(s: string) {
    forall i :: 0 <= i < |s| ==> IsSpace(s[i])
  }

  /** The number of whitespace characters at the front of `s`. */
  function LeadingSpaces(s: string): (n: nat)
    ensures n <= |s|
    ensures forall i :: 0 <= i < n ==> IsSpace(s[i])
    ensures n == |s| || !IsSpace(s[n])
  {
    if s == [] || !IsSpace(s[0]) then 0 else 1 + LeadingSpaces(s[1..])
  }

  /** The number of non-whitespace characters at the front of `s`. */
  function WordLength(s: string): (n: nat)
    ensures n <= |s|
    ensures forall i :: 0 <= i < n ==> !IsSpace(s[i])
    ensures n == |s| || IsSpace(s[n])
  {
    if s == [] || IsSpace(s[0]) then 0 else 1 + WordLength(s[1..])
  }

  /** Python's `s.split()`: the maximal runs of non-whitespace characters, in order. */
  function Split(s: string): seq<string>
    decreases |s|
  {
    var i := LeadingSpaces(s);
    if i == |s| then []
    else
      var j := i + WordLength(s[i..]);
      [s[i..j]] + Split(s[j..])
  }

  /** Every word `Split` produces is non-empty and free of whitespace. */
  lemma {:induction false} SplitWords(s: string)
    ensures forall w :: w in Split(s) ==> w != [] && forall k :: 0 <= k < |w| ==> !IsSpace(w[k])
    decreases |s|
  {
    var i := LeadingSpaces(s);
    if i < |s| {
      var j := i + WordLength(s[i..]);
      SplitWords(s[j..]);
    }
  }

  /** `s.split()` is empty exactly when `s` is blank. */
  lemma SplitEmptyIffBlank(s: string)
    ensures Split(s) == [] <==> IsBlank(s)
  {
    var i := LeadingSpaces(s);
    if i < |s| {
      assert !IsSpace(s[i]);
    }
  }

  /**
   * If `s` is blank up to `i`, has no whitespace in `[i, j)` and `j` ends the word,
   * then the first word of `s.split()` is `s[i..j]`.
   */
  lemma FirstWordAt(s: string, i: nat, j: nat)
    requires i < j <= |s|
    requires IsBlank(s[..i])
    requires forall k :: i <= k < j ==> !IsSpace(s[k])
    requires j == |s| || IsSpace(s[j])
    ensures Split(s) != [] && Split(s)[0] == s[i..j]
  {
    assert forall k :: 0 <= k < i ==> IsSpace(s[k]) by {
      assert forall k :: 0 <= k < i ==> s[..i][k] == s[k];
    }
    LeadingSpacesAt(s, i);
    var t := s[i..];
    assert forall k :: 0 <= k < j - i ==> !IsSpace(t[k]) by {
      assert forall k :: 0 <= k < j - i ==> t[k] == s[i + k];
    }
    assert j - i == |t| || IsSpace(t[j - i]);
    WordLengthAt(t, j - i);
    SplitFront(s, i, j);
  }

  /** `LeadingSpaces` is the index of the first non-whitespace character. */
  lemma LeadingSpacesAt(s: string, i: nat)
    requires i < |s| && !IsSpace(s[i])
    requires forall k :: 0 <= k < i ==> IsSpace(s[k])
    ensures LeadingSpaces(s) == i
  {
  }

  /** `WordLength` is the index of the first whitespace character, or the length. */
  lemma WordLengthAt(t: string, w: nat)
    requires w <= |t|
    requires forall k :: 0 <= k < w ==> !IsSpace(t[k])
    requires w == |t| || IsSpace(t[w])
    ensures WordLength(t) == w
  {
  }

  /** The first word is the run that starts after the leading whitespace. */
  lemma SplitFront(s: string, i: nat, j: nat)
    requires i < |s| && LeadingSpaces(s) == i && j == i + WordLength(s[i..])
    ensures Split(s) != [] && Split(s)[0] == s[i..j]
  {
  }

  /** Python's `line.split()[0]`; `None` where that raises IndexError. */
  function FirstToken(line: string): (r: Option<string>)
    ensures r.None? <==> IsBlank(line)
    ensures r.Some? ==> r.value != [] && forall k :: 0 <= k < |r.value| ==> !IsSpace(r.value[k])
  {
    SplitEmptyIffBlank(line);
    SplitWords(line);
    var words := Split(line);
    if words == [] then None else assert words[0] in words; Some(words[0])
  }

  /** An identifier: non-empty and free of whitespace. */
  predicate IsIdentifier(id: string) {
    id != [] && forall k :: 0 <= k < |id| ==> !IsSpace(id[k])
  }

  /** The first token of `id + " " + rest` is `id` when `id` holds no whitespace. */
  lemma TokenBeforeSpace(id: string, rest: string)
    requires IsIdentifier(id)
    ensures FirstToken(id + " " + rest) == Some(id)
  {
    var line := id + " " + rest;
    assert IsBlank(line[..0]);
    assert line[|id|] == ' ';
    assert line[0..|id|] == id;
    FirstWordAt(line, 0, |id|);
  }

  /** Python's `s.split(sep)` for a one-character separator: never empty. */
  function SplitOn(s: string, sep: char): (fields: seq<string>)
    ensures |fields| >= 1
  {
    if s == [] then [[]]
    else
      var rest := SplitOn(s[1..], sep);
      if s[0] == sep then [[]] + rest else [[s[0]] + rest[0]] + rest[1..]
  }

  /** Python's `sep.join(fields)`. */
  function Join(fields: seq<string>, sep: char): string {
    if fields == [] then []
    else if |fields| == 1 then fields[0]
    else fields[0] + [sep] + Join(fields[1..], sep)
  }

  /** Splitting and joining on the same separator gives back the string. */
  lemma {:induction false} JoinSplitOn(s: string, sep: char)
    ensures Join(SplitOn(s, sep), sep) == s
  {
    if s != [] {
      var rest := SplitOn(s[1..], sep);
      JoinSplitOn(s[1..], sep);
      if s[0] == sep {
        assert SplitOn(s, sep)[1..] == rest;
      } else {
        var f := SplitOn(s, sep);
        assert f[1..] == rest[1..];
        if |rest| == 1 {
          assert Join(f, sep) == [s[0]] + rest[0];
        } else {
          assert Join(f, sep) == [s[0]] + rest[0] + [sep] + Join(rest[1..], sep);
          assert Join(rest, sep) == rest[0] + [sep] + Join(rest[1..], sep);
        }
      }
    }
  }

  /** No field of `s.split(sep)` contains `sep`. */
  lemma {:induction false} SplitOnFields(s: string, sep: char)
    ensures forall k :: 0 <= k < |SplitOn(s, sep)| ==> sep !in SplitOn(s, sep)[k]
  {
    if s != [] {
      SplitOnFields(s[1..], sep);
      var rest := SplitOn(s[1..], sep);
      if s[0] != sep {
        assert sep !in rest[0];
      }
    }
  }

  function Last<T>(xs: seq<T>): T
    requires xs != []
  {
    xs[|xs| - 1]
  }

  /**
   * Python's `s.split(sep)[-1]` is the suffix of `s` after its last `sep`: it holds no `sep`,
   * and either it is all of `s` or a `sep` stands just before it.
   */
  lemma {:induction false} LastField(s: string, sep: char)
    ensures var f := Last(SplitOn(s, sep));
      sep !in f && |f| <= |s| && s[|s| - |f|..] == f && (|f| == |s| || s[|s| - |f| - 1] == sep)
    ensures |SplitOn(s, sep)| == 1 ==> Last(SplitOn(s, sep)) == s
    ensures |SplitOn(s, sep)| > 1 ==> |Last(SplitOn(s, sep))| < |s|
  {
    if s != [] {
      var rest := SplitOn(s[1..], sep);
      LastField(s[1..], sep);
      var fs := SplitOn(s, sep);
      var f, g := Last(fs), Last(rest);
      SplitOnStep(s, sep);
      if s[0] == sep || |rest| > 1 {
        SuffixOfTail(s, |g|);
      } else {
        assert f == s;
      }
    }
  }

  /** How the fields of `s` arise from those of `s[1..]`, as far as the last field is concerned. */
  lemma SplitOnStep(s: string, sep: char)
    requires s != []
    ensures var fs, rest := SplitOn(s, sep), SplitOn(s[1..], sep);
      && (s[0] == sep || |rest| > 1 ==> Last(fs) == Last(rest) && |fs| > 1)
      && (s[0] != sep && |rest| == 1 ==> fs == [[s[0]] + rest[0]] && rest[0] == s[1..])
  {
    var rest := SplitOn(s[1..], sep);
    if s[0] != sep && |rest| == 1 {
      JoinSplitOn(s[1..], sep);
    }
  }

  /** A suffix of `s[1..]` is the suffix of `s` of the same length, with the same predecessor. */
  lemma SuffixOfTail(s: string, n: nat)
    requires s != [] && n <= |s| - 1
    ensures s[1..][|s[1..]| - n..] == s[|s| - n..]
    ensures n < |s| - 1 ==> s[1..][|s[1..]| - n - 1] == s[|s| - n - 1]
  {
  }

  /** The suffix after the last `sep` is the only suffix with the properties `LastField` states. */
  lemma LastFieldUnique(s: string, sep: char, p: string, t: string)
    requires s == p + t
    requires sep !in t
    requires p == [] || p[|p| - 1] == sep
    ensures Last(SplitOn(s, sep)) == t
  {
    LastField(s, sep);
    assert s[|s| - |t|..] == t;
  }

  /** Python's `s.splitlines()[0]`; `None` where that raises IndexError (the empty string). */
  function FirstLine(s: string): (r: Option<string>)
    ensures r.None? <==> s == []
    ensures r.Some? ==> |r.value| <= |s| && s[..|r.value|] == r.value
    ensures r.Some? ==> forall k :: 0 <= k < |r.value| ==> !IsLineBreak(r.value[k])
    ensures r.Some? && |r.value| < |s| ==> IsLineBreak(s[|r.value|])
  {
    if s == [] then None else Some(s[..LineLength(s)])
  }

  function LineLength(s: string): (n: nat)
    ensures n <= |s|
    ensures forall i :: 0 <= i < n ==> !IsLineBreak(s[i])
    ensures n == |s| || IsLineBreak(s[n])
  {
    if s == [] || IsLineBreak(s[0]) then 0 else 1 + LineLength(s[1..])
  }

  predicate IsAsciiUpper(c: char) {
    'A' <= c <= 'Z'
  }

  function LowerChar(c: char): char {
    if IsAsciiUpper(c) then (c as int + 32) as char else c
  }

  /** Python's `s.lower()` restricted to ASCII letters. */
  function AsciiLower(s: string): (r: string)
    ensures |r| == |s|
    ensures forall i :: 0 <= i < |r| ==> !IsAsciiUpper(r[i])
    ensures forall i :: 0 <= i < |s| && !IsAsciiUpper(s[i]) ==> r[i] == s[i]
    ensures forall i :: 0 <= i < |s| && IsAsciiUpper(s[i]) ==> r[i] as int == s[i] as int + 32
  {
    if s == [] then [] else [LowerChar(s[0])] + AsciiLower(s[1..])
  }

  /** Lowering neither adds nor removes a character that is not an ASCII letter. */
  lemma AsciiLowerKeeps(s: string, c: char)
    requires !IsAsciiUpper(c) && !('a' <= c <= 'z')
    ensures c in AsciiLower(s) <==> c in s
  {
    var r := AsciiLower(s);
    if c in s {
      var i :| 0 <= i < |s| && s[i] == c;
      assert r[i] == c;
    }
    if c in r {
      var i :| 0 <= i < |r| && r[i] == c;
      assert s[i] == c;
    }
  }

  /** Lowering twice changes nothing more. */
  lemma AsciiLowerIdempotent(s: string)
    ensures AsciiLower(AsciiLower(s)) == AsciiLower(s)
  {
  }
}
