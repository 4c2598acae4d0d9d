/**
 * The string operations the tool relies on, with Python's meaning:
 * `str.isspace`, `str.strip`, `str.index`, `str.lower`, `str.startswith`,
 * `str.endswith`, `in` on strings, and `readlines` on a file opened in text mode.
 */
module Text {
  import opened Basics

  /** The characters for which Python's `str.isspace()` is true. */
  predicate IsSpace(c: char) {
    ('\t' <= c <= '\r') || ('\U{1c}' <= c <= ' ') || c == '\U{85}' || c == '\U{a0}'
    || c == '\U{1680}' || ('\U{2000}' <= c <= '\U{200a}') || c == '\U{2028}' || c == '\U{2029}'
    || c == '\U{202f}' || c == '\U{205f}' || c == '\U{3000}'
  }

  predicate AllSpace(s: string) {
    forall i :: 0 <= i < |s| ==> IsSpace(s[i])
  }

  lemma AllSpaceAppend(a: string, b: string)
    requires AllSpace(a) && AllSpace(b)
    ensures AllSpace(a + b)
  {
    forall i | 0 <= i < |a + b| ensures IsSpace((a + b)[i]) {
      if i < |a| {
        assert (a + b)[i] == a[i];
      } else {
        assert (a + b)[i] == b[i - |a|];
      }
    }
  }

  /** Neither the first nor the last character is white space. */
  predicate NoEdgeSpace(s: string) {
    s == [] || (!IsSpace(s[0]) && !IsSpace(s[|s| - 1]))
  }

  /** `s.lstrip()`: the longest suffix of `s` that does not start with white space. */
  function TrimLeft(s: string): (r: string)
    ensures |r| <= |s| && r == s[|s| - |r|..]
    ensures AllSpace(s[..|s| - |r|])
    ensures r == [] || !IsSpace(r[0])
  {
    if s != [] && IsSpace(s[0]) then
      var r := TrimLeft(s[1..]);
      TrimLeftStep(s, r);
      r
    else s
  }

  lemma TrimLeftStep(s: string, r: string)
    requires s != [] && IsSpace(s[0])
    requires |r| <= |s| - 1 && r == s[1..][|s| - 1 - |r|..] && AllSpace(s[1..][..|s| - 1 - |r|])
    ensures r == s[|s| - |r|..] && AllSpace(s[..|s| - |r|])
  {
    var k := |s| - |r|;
    assert s[1..][k - 1..] == s[k..];
    assert s[..k] == [s[0]] + s[1..][..k - 1];
    AllSpaceAppend([s[0]], s[1..][..k - 1]);
  }

  /** `s.rstrip()`: the longest prefix of `s` that does not end with white space. */
  function TrimRight(s: string): (r: string)
    ensures |r| <= |s| && r == s[..|r|]
    ensures AllSpace(s[|r|..])
    ensures r == [] || !IsSpace(r[|r| - 1])
  {
    if s != [] && IsSpace(s[|s| - 1]) then
      var r := TrimRight(s[..|s| - 1]);
      assert s[..|s| - 1][..|r|] == s[..|r|];
      assert s[|r|..] == s[..|s| - 1][|r|..] + [s[|s| - 1]];
      AllSpaceAppend(s[..|s| - 1][|r|..], [s[|s| - 1]]);
      r
    else s
  }

  /** `s.strip()`. */
  function Strip(s: string): (r: string)
  {
    TrimRight(TrimLeft(s))
  }

  /** What `strip` keeps is a slice of its input with white space only around it, and no white space at its edges. */
  lemma StripIsSlice(s: string) returns (i: nat, j: nat)
    ensures i <= j <= |s| && Strip(s) == s[i..j]
    ensures AllSpace(s[..i]) && AllSpace(s[j..])
    ensures NoEdgeSpace(Strip(s))
  {
    var l := TrimLeft(s);
    var r := TrimRight(l);
    i := |s| - |l|;
    j := i + |r|;
    SliceOfSuffix(s, i, r);
    StripEdges(l, r);
  }

  /** A prefix `r` of the suffix `s[i..]` is the slice `s[i..i + |r|]`, and what follows it in the suffix is what follows it in `s`. */
  lemma SliceOfSuffix(s: string, i: nat, r: string)
    requires i <= |s| && |r| <= |s| - i && r == s[i..][..|r|]
    ensures r == s[i..i + |r|] && s[i..][|r|..] == s[i + |r|..]
  {
  }

  /** Right-trimming text that does not start with white space leaves text with no white space at its edges. */
  lemma StripEdges(l: string, r: string)
    requires l == [] || !IsSpace(l[0])
    requires r == TrimRight(l)
    ensures NoEdgeSpace(r)
  {
    if r != [] {
      assert r[0] == l[0];
    }
  }

  lemma {:induction false} TrimLeftPadded(w: string, s: string)
    requires AllSpace(w)
    requires s == [] || !IsSpace(s[0])
    ensures TrimLeft(w + s) == s
  {
    if w != [] {
      assert (w + s)[1..] == w[1..] + s;
      TrimLeftPadded(w[1..], s);
    }
  }

  lemma {:induction false} TrimRightPadded(s: string, w: string)
    requires AllSpace(w)
    requires s == [] || !IsSpace(s[|s| - 1])
    ensures TrimRight(s + w) == s
  {
    if w != [] {
      assert (s + w)[..|s + w| - 1] == s + w[..|w| - 1];
      TrimRightPadded(s, w[..|w| - 1]);
    }
  }

  /** Stripping text that is `s` padded with white space gives back `s` exactly, when `s` has no white space at its edges. */
  lemma StripPadded(w1: string, s: string, w2: string)
    requires AllSpace(w1) && AllSpace(w2) && NoEdgeSpace(s)
    ensures Strip(w1 + s + w2) == s
  {
    if s == [] {
      assert w1 + s + w2 == w1 + w2;
      assert AllSpace(w1 + w2);
      TrimLeftPadded(w1 + w2, []);
      assert w1 + w2 + [] == w1 + w2;
    } else {
      assert w1 + s + w2 == w1 + (s + w2);
      TrimLeftPadded(w1, s + w2);
      TrimRightPadded(s, w2);
    }
  }

  /** `s.index(c)`: the first position of `c` in `s`, or `None` where Python raises `ValueError`. */
  function IndexOf(s: string, c: char): (r: Option<nat>)
    ensures r.None? <==> c !in s
    ensures r.Some? ==> r.value < |s| && s[r.value] == c && c !in s[..r.value]
  {
    if s == [] then None
    else if s[0] == c then Some(0)
    else
      match IndexOf(s[1..], c)
      case None => None
      case Some(i) =>
        assert s[..i + 1] == [s[0]] + s[1..][..i];
        Some(i + 1)
  }

  predicate StartsWith(s: string, prefix: string) {
    |prefix| <= |s| && s[..|prefix|] == prefix
  }

  predicate EndsWith(s: string, suffix: string) {
    |suffix| <= |s| && s[|s| - |suffix|..] == suffix
  }

  /** Python's `needle in s` for two strings. */
  predicate HasSubstring(s: string, needle: string) {
    StartsWith(s, needle) || (s != [] && HasSubstring(s[1..], needle))
  }

  /** `str.lower()` on one character; only the ASCII letters change. */
  function LowerChar(c: char): char {
    if 'A' <= c <= 'Z' then (c as int + 32) as char else c
  }

  function Lower(s: string): (r: string)
    ensures |r| == |s|
    ensures forall i :: 0 <= i < |s| ==> r[i] == LowerChar(s[i])
  {
    seq(|s|, i requires 0 <= i < |s| => LowerChar(s[i]))
  }

  /**
   * Universal-newline translation done by a file opened in text mode:
   * `\r\n` and a lone `\r` both read as `\n`.
   */
  function Translate(s: string): (r: string)
    ensures '\r' !in r
  {
    if s == [] then []
    else if s[0] == '\r' && |s| > 1 && s[1] == '\n' then "\n" + Translate(s[2..])
    else if s[0] == '\r' then "\n" + Translate(s[1..])
    else [s[0]] + Translate(s[1..])
  }

  /** Splits translated text after every `\n`; the last line has no `\n` when the text does not end with one. */
  function SplitLines(t: string): (lines: seq<string>)
    decreases |t|
  {
    if t == [] then []
    else
      match IndexOf(t, '\n')
      case None => [t]
      case Some(i) => [t[..i + 1]] + SplitLines(t[i + 1..])
  }

  /** `f.readlines()` on a file whose contents are `raw`. */
  function ReadLines(raw: string): seq<string> {
    SplitLines(Translate(raw))
  }

  /** The concatenation of a sequence of strings, as successive `f.write` calls produce it. */
  function Concat(parts: seq<string>): string {
    if parts == [] then [] else parts[0] + Concat(parts[1..])
  }

  lemma {:induction false} ConcatSnoc(parts: seq<string>, last: string)
    ensures Concat(parts + [last]) == Concat(parts) + last
  {
    if parts != [] {
      assert (parts + [last])[1..] == parts[1..] + [last];
      ConcatSnoc(parts[1..], last);
    }
  }

  /** `sep.join(items)`. */
  function JoinWith(sep: string, items: seq<string>): string {
    if items == [] then []
    else if |items| == 1 then items[0]
    else items[0] + sep + JoinWith(sep, items[1..])
  }

  /** A line as `readlines` returns it when the file continues past it: text without a line break, then `\n`. */
  predicate IsTerminatedLine(l: string) {
    |l| > 0 && l[|l| - 1] == '\n' && '\n' !in l[..|l| - 1]
  }

  /** Text made of terminated lines splits back into exactly those lines. */
  lemma {:induction false} SplitLinesConcat(lines: seq<string>)
    requires forall k :: 0 <= k < |lines| ==> IsTerminatedLine(lines[k])
    ensures SplitLines(Concat(lines)) == lines
  {
    if lines != [] {
      SplitLinesStep(lines[0], Concat(lines[1..]));
      SplitLinesConcat(lines[1..]);
    }
  }

  /** A terminated line in front of more text is split off as the first line. */
  lemma SplitLinesStep(l: string, rest: string)
    requires IsTerminatedLine(l)
    ensures SplitLines(l + rest) == [l] + SplitLines(rest)
  {
    var t := l + rest;
    var k := |l| - 1;
    assert t[k] == '\n';
    assert t[..k] == l[..k];
    var r := IndexOf(t, '\n');
    assert forall p :: 0 <= p < k ==> t[p] == l[..k][p];
    assert forall m :: k < m <= |t| ==> t[..m][k] == '\n';
    assert t[..k + 1] == l && t[k + 1..] == rest;
  }

  /** Text without a carriage return is read back unchanged by universal-newline translation. */
  lemma {:induction false} TranslateNoReturn(s: string)
    requires '\r' !in s
    ensures Translate(s) == s
  {
    if s != [] {
      assert '\r' !in s[1..];
      TranslateNoReturn(s[1..]);
    }
  }

  /** The decimal digits of a natural number, as `str` writes an `int`. */
  function NatDigits(n: nat): (r: string)
    ensures |r| > 0
    ensures forall i :: 0 <= i < |r| ==> '0' <= r[i] <= '9'
  {
    var d := ['0' + (n % 10) as char];
    if n < 10 then d else NatDigits(n / 10) + d
  }

  function IntToString(n: int): string {
    if n < 0 then "-" + NatDigits(-n) else NatDigits(n)
  }
}
