/**
  Text helpers shared by the JavaScript and the Python parts of the model:
  substring tests, joining and splitting, ASCII case mapping and Python's
  notion of whitespace with `str.strip`.
*/
module Text {

  predicate StartsWith(s: string, prefix: string) {
    |prefix| <= |s| && s[..|prefix|] == prefix
  }

  predicate EndsWith(s: string, suffix: string) {
    |suffix| <= |s| && s[|s| - |suffix|..] == suffix
  }

  /** `t` occurs in `s` at position `i`. */
  predicate OccursAt(s: string, t: string, i: int) {
    0 <= i && i + |t| <= |s| && s[i..i + |t|] == t
  }

  /** JavaScript `s.includes(t)` and Python `t in s`. */
  predicate Contains(s: string, t: string) {
    exists i :: 0 <= i <= |s| - |t| && OccursAt(s, t, i)
  }

  lemma ContainsSelf(s: string, t: string, a: string, b: string)
    requires s == a + t + b
    ensures Contains(s, t)
  {
    assert s[|a|..|a| + |t|] == t;
    assert OccursAt(s, t, |a|);
  }

  /** What a substring contains, the whole string contains. */
  lemma ContainsTrans(s: string, t: string, u: string)
    requires Contains(s, t) && Contains(t, u)
    ensures Contains(s, u)
  {
    var i :| 0 <= i <= |s| - |t| && OccursAt(s, t, i);
    var j :| 0 <= j <= |t| - |u| && OccursAt(t, u, j);
    assert forall x :: 0 <= x < |t| ==> s[i + x] == t[x] by {
      forall x | 0 <= x < |t| ensures s[i + x] == t[x] {
        assert s[i..i + |t|][x] == t[x];
      }
    }
    assert forall x :: 0 <= x < |u| ==> s[i + j + x] == u[x] by {
      forall x | 0 <= x < |u| ensures s[i + j + x] == u[x] {
        assert t[j..j + |u|][x] == u[x];
        assert s[i + (j + x)] == t[j + x];
      }
    }
    assert s[i + j..i + j + |u|] == u;
    assert OccursAt(s, u, i + j);
  }

  /** A string contains each of its prefixes. */
  lemma ContainsPrefix(s: string, t: string)
    requires StartsWith(s, t)
    ensures Contains(s, t)
  {
    assert OccursAt(s, t, 0);
  }

  /** Every string contains the empty string. */
  lemma ContainsEmpty(s: string)
    ensures Contains(s, "")
  {
    assert OccursAt(s, "", 0);
  }

  /** JavaScript `parts.join(sep)` and Python `sep.join(parts)`. */
  function Join(parts: seq<string>, sep: string): string {
    if |parts| == 0 then ""
    else if |parts| == 1 then parts[0]
    else parts[0] + sep + Join(parts[1..], sep)
  }

  /** Concatenation of `line + "\n"` for every line, in order. */
  function Lines(lines: seq<string>): string {
    if |lines| == 0 then "" else Lines(lines[..|lines| - 1]) + lines[|lines| - 1] + "\n"
  }

  /** Index of the first occurrence of `c` in `s`. */
  function IndexOf(s: string, c: char): (k: nat)
    requires c in s
    ensures k < |s| && s[k] == c && c !in s[..k]
  {
    if s[0] == c then 0 else 1 + IndexOf(s[1..], c)
  }

  /** Cutting `s` at the first `c` and gluing the two sides back around `c` gives `s`. */
  lemma SplitAtFirst(s: string, c: char)
    requires c in s
    ensures s == s[..IndexOf(s, c)] + [c] + s[IndexOf(s, c) + 1..]
  {
  }

  /**
    JavaScript `s.split(sep)` for a one-character separator: the pieces
    between separators, empty ones included, so that joining them back with
    the separator gives `s` again.
  */
  function Split(s: string, sep: char): (r: seq<string>)
    ensures |r| >= 1
    ensures forall i :: 0 <= i < |r| ==> sep !in r[i]
    ensures Join(r, [sep]) == s
    decreases |s|
  {
    if sep !in s then [s]
    else
      var k := IndexOf(s, sep);
      var rest := Split(s[k + 1..], sep);
      assert s == s[..k] + [sep] + s[k + 1..];
      [s[..k]] + rest
  }

  // ASCII case mapping (JavaScript toLowerCase and Python str.upper restricted to ASCII).

  function LowerChar(c: char): char {
    if 'A' <= c <= 'Z' then (c as int + 32) as char else c
  }

  function UpperChar(c: char): char {
    if 'a' <= c <= 'z' then (c as int - 32) as char else c
  }

  function Lower(s: string): (r: string)
    ensures |r| == |s|
    ensures forall i :: 0 <= i < |s| ==> r[i] == LowerChar(s[i])
  {
    if |s| == 0 then "" else [LowerChar(s[0])] + Lower(s[1..])
  }

  function Upper(s: string): (r: string)
    ensures |r| == |s|
    ensures forall i :: 0 <= i < |s| ==> r[i] == UpperChar(s[i])
  {
    if |s| == 0 then "" else [UpperChar(s[0])] + Upper(s[1..])
  }

  /** Python `str.isspace` for one character (the characters `\s` matches in a `str` pattern). */
  predicate IsSpace(c: char) {
    c == ' ' || '\t' <= c <= '\r' || '\U{1C}' <= c <= '\U{1F}'
    || c == '\U{85}' || c == '\U{A0}' || c == '\U{1680}'
    || '\U{2000}' <= c <= '\U{200A}' || c == '\U{2028}' || c == '\U{2029}'
    || c == '\U{202F}' || c == '\U{205F}' || c == '\U{3000}'
  }

  predicate AllSpace(s: string) {
    forall i :: 0 <= i < |s| ==> IsSpace(s[i])
  }

  /** Python `s.lstrip()`: drops the leading whitespace and nothing else. */
  function StripLeft(s: string): (r: string)
    ensures |r| <= |s| && r == s[|s| - |r|..]
    ensures AllSpace(s[..|s| - |r|])
    ensures r == [] || !IsSpace(r[0])
  {
    if |s| > 0 && IsSpace(s[0]) then
      var r := StripLeft(s[1..]);
      assert forall k :: 0 < k < |s| - |r| ==> s[k] == s[1..][..|s| - 1 - |r|][k - 1];
      r
    else s
  }

  /** Python `s.rstrip()`: drops the trailing whitespace and nothing else. */
  function StripRight(s: string): (r: string)
    ensures |r| <= |s| && r == s[..|r|]
    ensures AllSpace(s[|r|..])
    ensures r == [] || !IsSpace(r[|r| - 1])
  {
    if |s| > 0 && IsSpace(s[|s| - 1]) then
      var r := StripRight(s[..|s| - 1]);
      assert forall k :: |r| <= k < |s| - 1 ==> s[k] == s[..|s| - 1][|r|..][k - |r|];
      r
    else s
  }

  /**
    A suffix `l` of `s` after a whitespace prefix, cut down to a prefix `r`
    of `l` before a whitespace suffix, is a middle piece of `s`.
  */
  lemma MiddlePiece(s: string, l: string, r: string)
    requires |l| <= |s| && l == s[|s| - |l|..] && AllSpace(s[..|s| - |l|])
    requires |r| <= |l| && r == l[..|r|] && AllSpace(l[|r|..])
    ensures exists i, j :: 0 <= i <= j <= |s| && r == s[i..j] && AllSpace(s[..i]) && AllSpace(s[j..])
  {
    var i := |s| - |l|;
    var j := i + |r|;
    assert r == s[i..j];
    assert AllSpace(s[j..]) by {
      forall k | 0 <= k < |s| - j
        ensures IsSpace(s[j..][k])
      {
        assert s[j..][k] == l[|r|..][k];
      }
    }
  }

  /** Python `s.strip()`: the middle of `s` once the whitespace at both ends is cut. */
  function Strip(s: string): (r: string)
    ensures r == [] <==> AllSpace(s)
    ensures r == [] || (!IsSpace(r[0]) && !IsSpace(r[|r| - 1]))
    ensures forall c :: c in r ==> c in s
  {
    var l := StripLeft(s);
    assert AllSpace(s) ==> AllSpace(l);
    StripRight(l)
  }

  /** Stripping cuts only whitespace, and only at the two ends: the result is a middle piece of `s`. */
  lemma StripIsMiddle(s: string)
    ensures exists i, j :: 0 <= i <= j <= |s| && Strip(s) == s[i..j] && AllSpace(s[..i]) && AllSpace(s[j..])
  {
    var l := StripLeft(s);
    MiddlePiece(s, l, StripRight(l));
  }

  /** A string without surrounding whitespace is its own strip. */
  lemma StripTrimmed(s: string)
    requires s == [] || (!IsSpace(s[0]) && !IsSpace(s[|s| - 1]))
    ensures Strip(s) == s
  {
  }

  /** Stripping removes whitespace only: every other character survives it. */
  lemma StripKeepsNonSpace(s: string, c: char)
    requires c in s && !IsSpace(c)
    ensures c in Strip(s)
  {
    var l := StripLeft(s);
    var r := StripRight(l);
    var i :| 0 <= i < |s| && s[i] == c;
    assert i >= |s| - |l| && l[i - (|s| - |l|)] == c;
    assert i - (|s| - |l|) < |r| && r[i - (|s| - |l|)] == c;
  }

  /** The text built from lines is all whitespace exactly when every line is. */
  lemma {:induction false} AllSpaceLines(lines: seq<string>)
    ensures AllSpace(Lines(lines)) <==> forall i :: 0 <= i < |lines| ==> AllSpace(lines[i])
  {
    if |lines| > 0 {
      var init := lines[..|lines| - 1];
      var last := lines[|lines| - 1];
      AllSpaceLines(init);
      var a := Lines(init);
      assert Lines(lines) == a + last + "\n";
      assert AllSpace(a + last + "\n") <==> AllSpace(a) && AllSpace(last) by {
        assert forall k :: 0 <= k < |a| ==> (a + last + "\n")[k] == a[k];
        assert forall k :: 0 <= k < |last| ==> (a + last + "\n")[|a| + k] == last[k];
        assert (a + last + "\n")[|a| + |last|] == '\n';
      }
      assert forall i :: 0 <= i < |init| ==> init[i] == lines[i];
    }
  }
}
