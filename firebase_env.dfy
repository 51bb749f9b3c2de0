/**
  firebase_config_converter.py: turns the Firebase console's
  `const firebaseConfig = {...};` snippet into `.env` assignments. The file
  system and the console are inputs here: whether `vite.config.js` exists,
  the text of `package.json` if there is one, the pasted lines, the typed
  prefix, and the lines of an existing `.env` file.
*/
module FirebaseEnv {
  import opened Wrappers
  import opened Text

  // ---------------------------------------------------------------------------
  // Project type and prefix

  datatype Detected = Detected(prefix: string, description: string)

  /**
    `detect_project_type()`: the checks run in order and the first that holds
    decides: a Vite config, then `"react-scripts"` in `package.json`, then
    `"nuxt"` in it; anything else is a custom project.
  */
  function DetectProjectType(viteConfigExists: bool, packageJson: Option<string>): (r: Detected)
    ensures viteConfigExists ==> r.prefix == "VITE_"
    ensures !viteConfigExists && packageJson.Some? && Contains(packageJson.value, "\"react-scripts\"")
      ==> r.prefix == "REACT_APP_"
    ensures !viteConfigExists && packageJson.Some?
      && !Contains(packageJson.value, "\"react-scripts\"") && Contains(packageJson.value, "\"nuxt\"")
      ==> r.prefix == "NUXT_"
    ensures !viteConfigExists
      && (packageJson.None? || (!Contains(packageJson.value, "\"react-scripts\"") && !Contains(packageJson.value, "\"nuxt\"")))
      ==> r.prefix == "CUSTOM_"
  {
    if viteConfigExists then Detected("VITE_", "Vite")
    else if packageJson.Some? && Contains(packageJson.value, "\"react-scripts\"") then
      Detected("REACT_APP_", "Create React App (CRA)")
    else if packageJson.Some? && Contains(packageJson.value, "\"nuxt\"") then Detected("NUXT_", "Nuxt")
    else Detected("CUSTOM_", "Other (e.g., custom, or a different framework)")
  }

  /** Every detected prefix is one of the four and already ends with `_`. */
  lemma DetectedPrefixes(viteConfigExists: bool, packageJson: Option<string>)
    ensures DetectProjectType(viteConfigExists, packageJson).prefix in {"VITE_", "REACT_APP_", "NUXT_", "CUSTOM_"}
    ensures EndsWith(DetectProjectType(viteConfigExists, packageJson).prefix, "_")
  {
  }

  /**
    Lines 56-60: the stripped answer if it is not empty, else the detected
    prefix; `_` is appended exactly when the chosen text does not already end with it.
  */
  function NormalizePrefix(userInput: string, detected: string): (r: string)
    ensures EndsWith(r, "_")
    ensures var chosen := if Strip(userInput) != "" then Strip(userInput) else detected;
      && (EndsWith(chosen, "_") ==> r == chosen)
      && (!EndsWith(chosen, "_") ==> r == chosen + "_")
  {
    var answer := Strip(userInput);
    var chosen := if answer != "" then answer else detected;
    if EndsWith(chosen, "_") then chosen
    else
      assert (chosen + "_")[|chosen + "_"| - 1..] == "_";
      chosen + "_"
  }

  /** A typed prefix, once normalised, is kept as it is when typed again. */
  lemma NormalizeTypedIdempotent(userInput: string, detected: string, other: string)
    requires Strip(userInput) != ""
    ensures NormalizePrefix(NormalizePrefix(userInput, detected), other) == NormalizePrefix(userInput, detected)
  {
    var answer := Strip(userInput);
    var r := NormalizePrefix(userInput, detected);
    assert r[0] == answer[0];
    assert r[|r| - 1] == '_' by { assert r[|r| - 1..] == "_"; }
    StripTrimmed(r);
  }

  // ---------------------------------------------------------------------------
  // The pasted snippet

  /** Lines 38-44: every line read is appended with its newline until end of input. */
  method ReadSnippet(lines: seq<string>) returns (input: string)
    ensures input == Lines(lines)
    ensures Strip(input) == "" <==> forall i :: 0 <= i < |lines| ==> AllSpace(lines[i])
  {
    input := "";
    var i := 0;
    while i < |lines|
      invariant 0 <= i <= |lines|
      invariant input == Lines(lines[..i])
    {
      input := input + lines[i] + "\n";
      assert lines[..i + 1][..i] == lines[..i];
      i := i + 1;
    }
    assert lines[..i] == lines;
    AllSpaceLines(lines);
  }

  // ---------------------------------------------------------------------------
  // Character runs

  /** ASCII `\w` */
  predicate IsWordChar(c: char) {
    'a' <= c <= 'z' || 'A' <= c <= 'Z' || '0' <= c <= '9' || c == '_'
  }

  /** ASCII `\d` */
  predicate IsDigit(c: char) {
    '0' <= c <= '9'
  }

  /** The character classes the two patterns repeat. */
  datatype CharClass = Space | Word | Digit | NotBrace | NotQuote

  predicate InClass(c: char, cls: CharClass) {
    match cls
    case Space => IsSpace(c)
    case Word => IsWordChar(c)
    case Digit => IsDigit(c)
    case NotBrace => c != '}'
    case NotQuote => c != '"'
  }

  /** The length of the longest run of characters satisfying `p` that starts at `i`. */
  function Run(s: string, i: nat, cls: CharClass): (n: nat)
    requires i <= |s|
    ensures i + n <= |s|
    ensures i + n == |s| || !InClass(s[i + n], cls)
    decreases |s| - i
  {
    if i < |s| && InClass(s[i], cls) then 1 + Run(s, i + 1, cls) else 0
  }

  /** Every character of a run is in its class. */
  lemma {:induction false} RunAll(s: string, i: nat, cls: CharClass)
    requires i <= |s|
    ensures forall k :: i <= k < i + Run(s, i, cls) ==> InClass(s[k], cls)
    decreases |s| - i
  {
    if i < |s| && InClass(s[i], cls) {
      RunAll(s, i + 1, cls);
    }
  }

  /** A run is determined by where it stops. */
  lemma {:induction false} RunExact(s: string, i: nat, n: nat, cls: CharClass)
    requires i + n <= |s|
    requires forall k :: i <= k < i + n ==> InClass(s[k], cls)
    requires i + n == |s| || !InClass(s[i + n], cls)
    ensures Run(s, i, cls) == n
    decreases n
  {
    if n > 0 {
      assert InClass(s[i], cls);
      RunExact(s, i + 1, n - 1, cls);
    }
  }

  /** Runs only look forward: prefixing text does not change a run inside the rest. */
  lemma {:induction false} RunShift(a: string, b: string, k: nat, cls: CharClass)
    requires k <= |b|
    ensures Run(a + b, |a| + k, cls) == Run(b, k, cls)
    decreases |b| - k
  {
    if k < |b| {
      assert (a + b)[|a| + k] == b[k];
      RunShift(a, b, k + 1, cls);
    }
  }

  // ---------------------------------------------------------------------------
  // Finding the configuration object

  /** `s[i..]` begins with `t`. */
  predicate At(s: string, i: nat, t: string) {
    i + |t| <= |s| && s[i..i + |t|] == t
  }

  /**
    The pattern `const\s+firebaseConfig\s*=\s*\{([^}]+)\};` tried at position
    `i`, giving the bounds of its group. Every repetition in it is followed
    by a character it cannot match, so the longest run is the only one that
    can succeed and the match at a position is unique.
  */
  function ConfigSpan(s: string, i: nat): (r: Option<(nat, nat)>)
    requires i <= |s|
    ensures r.Some? ==> 1 <= r.value.0 < r.value.1 && r.value.1 + 2 <= |s|
    ensures r.Some? ==> s[r.value.0 - 1] == '{' && s[r.value.1] == '}' && s[r.value.1 + 1] == ';'
    ensures r.Some? ==> forall k :: r.value.0 <= k < r.value.1 ==> s[k] != '}'
  {
    match OpeningAt(s, i)
    case None => None
    case Some(k5) => BodyAfter(s, k5)
  }

  /** `const\s+firebaseConfig\s*=\s*` at `i`: where the brace should follow. */
  function OpeningAt(s: string, i: nat): (r: Option<nat>)
    requires i <= |s|
    ensures r.Some? ==> i < r.value <= |s|
  {
    if !At(s, i, "const") then None
    else
      var w := Run(s, i + 5, Space);
      var k2 := i + 5 + w;
      if w == 0 || !At(s, k2, "firebaseConfig") then None
      else
        var k4 := k2 + 14 + Run(s, k2 + 14, Space);
        if k4 == |s| || s[k4] != '=' then None
        else Some(k4 + 1 + Run(s, k4 + 1, Space))
  }

  /** `\{([^}]+)\};` at `k`: the bounds of the group. */
  function BodyAfter(s: string, k: nat): (r: Option<(nat, nat)>)
    requires k <= |s|
    ensures r.Some? ==> 1 <= r.value.0 < r.value.1 && r.value.1 + 2 <= |s|
    ensures r.Some? ==> s[r.value.0 - 1] == '{' && s[r.value.1] == '}' && s[r.value.1 + 1] == ';'
    ensures r.Some? ==> forall j :: r.value.0 <= j < r.value.1 ==> s[j] != '}'
  {
    if k == |s| || s[k] != '{' then None
    else
      var b := Run(s, k + 1, NotBrace);
      var e := k + 1 + b;
      if b > 0 && e + 2 <= |s| && s[e] == '}' && s[e + 1] == ';' then
        RunAll(s, k + 1, NotBrace);
        Some((k + 1, e))
      else None
  }

  /** A body found between `{` and `};` occurs bracketed in the text. */
  lemma Bracketed(s: string, a: nat, b: nat)
    requires 1 <= a < b && b + 2 <= |s|
    requires s[a - 1] == '{' && s[b] == '}' && s[b + 1] == ';'
    requires forall k :: a <= k < b ==> s[k] != '}'
    ensures s[a..b] != "" && '}' !in s[a..b]
    ensures Contains(s, "{" + s[a..b] + "};")
  {
    var t := "{" + s[a..b] + "};";
    assert forall j :: 0 <= j < b - a ==> s[a..b][j] == s[a + j];
    assert s[a - 1..b + 2] == t;
    assert OccursAt(s, t, a - 1);
  }

  /** The pattern's group when it matches at `i`. */
  function ConfigAt(s: string, i: nat): (r: Option<string>)
    requires i <= |s|
    ensures r.Some? ==> r.value != "" && '}' !in r.value && Contains(s, "{" + r.value + "};")
  {
    match ConfigSpan(s, i)
    case None => None
    case Some((a, b)) =>
      Bracketed(s, a, b);
      Some(s[a..b])
  }

  /** The first `true` at or after `i`. */
  function FirstTrue(b: seq<bool>, i: nat): (r: Option<nat>)
    requires i <= |b|
    ensures r.Some? ==> i <= r.value < |b| && b[r.value]
    ensures r.Some? ==> forall j :: i <= j < r.value ==> !b[j]
    ensures r.None? ==> forall j :: i <= j < |b| ==> !b[j]
    decreases |b| - i
  {
    if i == |b| then None
    else if b[i] then Some(i)
    else FirstTrue(b, i + 1)
  }

  /** For every position of the text, the end included, whether the pattern matches there. */
  function ConfigHits(s: string): (m: seq<bool>)
    ensures |m| == |s| + 1
    ensures forall j :: 0 <= j <= |s| ==> m[j] == ConfigAt(s, j).Some?
  {
    seq(|s| + 1, j requires 0 <= j <= |s| => ConfigAt(s, j).Some?)
  }

  /** `search`: the leftmost position where the pattern matches. */
  function FirstConfig(s: string): (r: Option<nat>)
    ensures r.Some? ==> r.value <= |s| && ConfigAt(s, r.value).Some?
    ensures r.Some? ==> forall j :: 0 <= j < r.value ==> ConfigAt(s, j).None?
    ensures r.None? ==> forall j :: 0 <= j <= |s| ==> ConfigAt(s, j).None?
  {
    var hits := ConfigHits(s);
    FirstTrue(hits, 0)
  }

  /** `match.group(1)` of the search over the whole input, if there is a match. */
  function SearchConfig(s: string): Option<string> {
    match FirstConfig(s)
    case None => None
    case Some(i) => ConfigAt(s, i)
  }

  const ConfigOpening: string := "const firebaseConfig = {"

  /** The opening is matched up to its brace, whatever follows it. */
  lemma OpeningMatches(rest: string)
    ensures OpeningAt(ConfigOpening + rest, 0) == Some(23)
  {
    var s := ConfigOpening + rest;
    assert s[..24] == ConfigOpening;
    OpeningWords(s);
    OpeningSpaces(s);
  }

  /** The words of the opening, in place. */
  lemma OpeningWords(s: string)
    requires |s| >= 24 && s[..24] == ConfigOpening
    ensures At(s, 0, "const") && At(s, 6, "firebaseConfig") && s[21] == '='
  {
    assert s[0..5] == s[..24][0..5];
    assert s[6..20] == s[..24][6..20];
    assert s[21] == s[..24][21];
  }

  /** The single spaces of the opening, each a maximal run. */
  lemma OpeningSpaces(s: string)
    requires |s| >= 24 && s[..24] == ConfigOpening
    ensures Run(s, 5, Space) == 1 && Run(s, 20, Space) == 1 && Run(s, 22, Space) == 1
  {
    var o := s[..24];
    assert s[5] == o[5] == ' ' && s[6] == o[6] == 'f';
    assert s[20] == o[20] == ' ' && s[21] == o[21] == '=';
    assert s[22] == o[22] == ' ' && s[23] == o[23] == '{';
    SingleRun(s, 5, Space);
    SingleRun(s, 20, Space);
    SingleRun(s, 22, Space);
  }

  /** A run of exactly one character. */
  lemma SingleRun(s: string, i: nat, cls: CharClass)
    requires i + 1 < |s| && InClass(s[i], cls) && !InClass(s[i + 1], cls)
    ensures Run(s, i, cls) == 1
  {
    RunExact(s, i, 1, cls);
  }

  /** A body without `}` followed by `};` is taken whole. */
  lemma BodyMatches(s: string, k: nat, body: string)
    requires k < |s| && s[k] == '{'
    requires body != "" && '}' !in body
    requires s[k + 1..] == body + "};"
    ensures BodyAfter(s, k) == Some((k + 1, k + 1 + |body|))
    ensures s[k + 1..k + 1 + |body|] == body
  {
    var t := s[k + 1..];
    assert forall j :: 0 <= j < |body| ==> s[k + 1 + j] == t[j] == body[j];
    assert s[k + 1 + |body|] == t[|body|] == '}';
    assert s[k + 2 + |body|] == t[|body| + 1] == ';';
    RunExact(s, k + 1, |body|, NotBrace);
    assert s[k + 1..k + 1 + |body|] == t[..|body|];
  }

  /** The snippet as the Firebase console writes it is found, and its body is returned unchanged. */
  lemma ConfigFound(body: string)
    requires body != "" && '}' !in body
    ensures SearchConfig(ConfigOpening + body + "};") == Some(body)
  {
    var s := ConfigOpening + (body + "};");
    assert ConfigOpening + body + "};" == s;
    OpeningMatches(body + "};");
    assert s[23] == '{' && s[24..] == body + "};";
    BodyMatches(s, 23, body);
    assert ConfigHits(s)[0];
    assert FirstConfig(s) == Some(0);
  }

  // ---------------------------------------------------------------------------
  // Key/value pairs

  datatype Pair = Pair(key: string, value: string)

  /** What `\w+` can capture. */
  predicate ValidKey(k: string) {
    |k| >= 1 && forall i :: 0 <= i < |k| ==> IsWordChar(k[i])
  }

  /** What `".*?"|\d+` can capture: a quoted string with no quote inside, or digits. */
  predicate ValidValue(v: string) {
    || (|v| >= 2 && v[0] == '"' && v[|v| - 1] == '"' && forall i :: 0 < i < |v| - 1 ==> v[i] != '"')
    || (|v| >= 1 && forall i :: 0 <= i < |v| ==> IsDigit(v[i]))
  }

  /**
    `".*?"|\d+` at `q`: the end of the value. The lazy `.*?` stops at the
    first quote after the opening one (under `re.DOTALL` it crosses line
    breaks); `\d+` takes every digit, since what follows it in the pattern can
    match the empty string.
  */
  function ValueEnd(s: string, q: nat): (r: Option<nat>)
    requires q <= |s|
    ensures r.Some? ==> q < r.value <= |s| && ValidValue(s[q..r.value])
  {
    if q < |s| && s[q] == '"' then
      var n := Run(s, q + 1, NotQuote);
      if q + 1 + n < |s| then
        RunAll(s, q + 1, NotQuote);
        Some(q + n + 2)
      else None
    else if q < |s| && IsDigit(s[q]) then
      var n := Run(s, q, Digit);
      RunAll(s, q, Digit);
      Some(q + n)
    else None
  }

  /** `\s*(\w+):` at `p`: the bounds of the key; the colon follows it. */
  function KeyAt(s: string, p: nat): (r: Option<(nat, nat)>)
    requires p <= |s|
    ensures r.Some? ==> p <= r.value.0 < r.value.1 < |s| && s[r.value.1] == ':'
    ensures r.Some? ==> ValidKey(s[r.value.0..r.value.1])
  {
    var q1 := p + Run(s, p, Space);
    var n := Run(s, q1, Word);
    if n == 0 || q1 + n == |s| || s[q1 + n] != ':' then None
    else
      RunAll(s, q1, Word);
      Some((q1, q1 + n))
  }

  /** `:\s*` with the colon at `c`: where the value starts. */
  function ValueStart(s: string, c: nat): (q: nat)
    requires c < |s|
    ensures c < q <= |s|
  {
    c + 1 + Run(s, c + 1, Space)
  }

  /** `\s*,?` after the value at `q`: where the match ends. */
  function PairEnd(s: string, q: nat): (e: nat)
    requires q <= |s|
    ensures q <= e <= |s|
  {
    var q5 := q + Run(s, q, Space);
    if q5 < |s| && s[q5] == ',' then q5 + 1 else q5
  }

  /**
    `\s*(\w+):\s*(".*?"|\d+)\s*,?` tried at `p`: the pair and where the match
    ends. `\s` and `\w` share no character and `:` is neither, so each
    repetition is maximal in the only match there can be.
  */
  function PairAt(s: string, p: nat): (r: Option<(Pair, nat)>)
    requires p <= |s|
    ensures r.Some? ==> p < r.value.1 <= |s| && ValidKey(r.value.0.key) && ValidValue(r.value.0.value)
  {
    match KeyAt(s, p)
    case None => None
    case Some((q1, q2)) =>
      var q3 := ValueStart(s, q2);
      match ValueEnd(s, q3)
      case None => None
      case Some(q4) => Some((Pair(s[q1..q2], s[q3..q4]), PairEnd(s, q4)))
  }

  /**
    A match table: at each position, the pair matched there and where that
    match ends, if the pattern matches there.
  */
  predicate HitsForward(m: seq<Option<(Pair, nat)>>) {
    forall j :: 0 <= j < |m| && m[j].Some? ==>
      && j < m[j].value.1 <= |m|
      && ValidKey(m[j].value.0.key) && ValidValue(m[j].value.0.value)
  }

  /** `findall`'s scan over a match table: each match is taken and the scan resumes where it ended; elsewhere it moves one character on. */
  function Scan(m: seq<Option<(Pair, nat)>>, p: nat): (r: seq<Pair>)
    requires HitsForward(m) && p <= |m|
    ensures forall i :: 0 <= i < |r| ==> ValidKey(r[i].key) && ValidValue(r[i].value)
    decreases |m| - p
  {
    if p == |m| then []
    else
      match m[p]
      case Some((pair, e)) => [pair] + Scan(m, e)
      case None => Scan(m, p + 1)
  }

  /** The table of `PairAt` over the first `n` positions of the text. */
  function HitsUpTo(s: string, n: nat): (m: seq<Option<(Pair, nat)>>)
    requires n <= |s|
    ensures |m| == n
    ensures forall j :: 0 <= j < n && m[j].Some? ==>
      && j < m[j].value.1 <= |s|
      && ValidKey(m[j].value.0.key) && ValidValue(m[j].value.0.value)
  {
    if n == 0 then [] else HitsUpTo(s, n - 1) + [PairAt(s, n - 1)]
  }

  /** The table of `PairAt` over the text. */
  function PairHits(s: string): (m: seq<Option<(Pair, nat)>>)
    ensures |m| == |s| && HitsForward(m)
  {
    HitsUpTo(s, |s|)
  }

  /** Each entry of the table is `PairAt` at its position. */
  lemma {:induction false} HitAt(s: string, n: nat, j: nat)
    requires j < n <= |s|
    ensures HitsUpTo(s, n)[j] == PairAt(s, j)
  {
    if j < n - 1 {
      HitAt(s, n - 1, j);
    }
  }

  /** `findall` from `p`. No match can start at the very end, as `\w+` needs a character. */
  function FindAll(s: string, p: nat): (r: seq<Pair>)
    requires p <= |s|
    ensures forall i :: 0 <= i < |r| ==> ValidKey(r[i].key) && ValidValue(r[i].value)
  {
    Scan(PairHits(s), p)
  }

  /** One entry as the Firebase console prints it. */
  function RenderPair(p: Pair): string {
    "\n  " + p.key + ": " + p.value + ","
  }

  function Render(ps: seq<Pair>): string {
    if |ps| == 0 then "" else RenderPair(ps[0]) + Render(ps[1..])
  }

  predicate ValidPairs(ps: seq<Pair>) {
    forall i :: 0 <= i < |ps| ==> ValidKey(ps[i].key) && ValidValue(ps[i].value)
  }

  /** A valid value followed by `,` is read whole. */
  lemma ValueRendered(s: string, q: nat, v: string)
    requires ValidValue(v) && q + |v| < |s| && s[q..q + |v|] == v && s[q + |v|] == ','
    ensures ValueEnd(s, q) == Some(q + |v|)
  {
    assert forall i :: 0 <= i < |v| ==> s[q + i] == v[i];
    if v[0] == '"' {
      RunExact(s, q + 1, |v| - 2, NotQuote);
    } else {
      RunExact(s, q, |v|, Digit);
    }
  }

  /** Where each part of a rendered entry sits. */
  lemma RenderPairLayout(p: Pair)
    ensures var t := RenderPair(p);
      && |t| == |p.key| + |p.value| + 6
      && t[0] == '\n' && t[1] == ' ' && t[2] == ' '
      && t[3..3 + |p.key|] == p.key
      && t[3 + |p.key|] == ':' && t[4 + |p.key|] == ' '
      && t[5 + |p.key|..5 + |p.key| + |p.value|] == p.value
      && t[5 + |p.key| + |p.value|] == ','
  {
  }

  /**
    An entry laid out as the console prints it, read stage by stage: the key
    after the indentation, the value after the colon and one space, and the
    end of the match just after the comma.
  */
  lemma PairLaidOut(s: string, b: nat, k: nat, v: nat)
    requires b + k + v + 6 <= |s|
    requires ValidKey(s[b + 3..b + 3 + k]) && ValidValue(s[b + 5 + k..b + 5 + k + v])
    requires s[b] == '\n' && s[b + 1] == ' ' && s[b + 2] == ' '
    requires s[b + 3 + k] == ':' && s[b + 4 + k] == ' '
    requires s[b + 5 + k + v] == ','
    ensures KeyAt(s, b) == Some((b + 3, b + 3 + k)) && ValueStart(s, b + 3 + k) == b + 5 + k
    ensures ValueEnd(s, b + 5 + k) == Some(b + 5 + k + v) && PairEnd(s, b + 5 + k + v) == b + k + v + 6
  {
    assert s[b + 5 + k] == s[b + 5 + k..b + 5 + k + v][0];
    KeyLaidOut(s, b, k);
    ValueLaidOut(s, b + 5 + k, v);
  }

  /** `PairAt` assembled from its three stages. */
  lemma PairFromParts(s: string, p: nat, q1: nat, q2: nat, q3: nat, q4: nat, pair: Pair, e: nat)
    requires p <= |s| && q3 <= |s|
    requires KeyAt(s, p) == Some((q1, q2)) && ValueStart(s, q2) == q3
    requires ValueEnd(s, q3) == Some(q4) && PairEnd(s, q4) == e
    requires q1 <= q2 <= |s| && q3 <= q4 <= |s| && pair == Pair(s[q1..q2], s[q3..q4])
    ensures PairAt(s, p) == Some((pair, e))
  {
  }

  /** The indented key of an entry, its colon and the single space after it. */
  lemma KeyLaidOut(s: string, b: nat, k: nat)
    requires b + 5 + k < |s| && ValidKey(s[b + 3..b + 3 + k])
    requires s[b] == '\n' && s[b + 1] == ' ' && s[b + 2] == ' '
    requires s[b + 3 + k] == ':' && s[b + 4 + k] == ' '
    requires s[b + 5 + k] == '"' || IsDigit(s[b + 5 + k])
    ensures KeyAt(s, b) == Some((b + 3, b + 3 + k)) && ValueStart(s, b + 3 + k) == b + 5 + k
  {
    KeyRendered(s, b, s[b + 3..b + 3 + k]);
    AfterKey(s, b + 3 + k);
  }

  /** A value of length `v` followed by its comma: the value is read whole and the match ends after the comma. */
  lemma ValueLaidOut(s: string, q: nat, v: nat)
    requires q + v < |s| && ValidValue(s[q..q + v]) && s[q + v] == ','
    ensures ValueEnd(s, q) == Some(q + v) && PairEnd(s, q + v) == q + v + 1
  {
    ValueRendered(s, q, s[q..q + v]);
    EndRendered(s, q + v);
  }

  /** The layout of a rendered entry, read off the text it was copied into. */
  lemma RenderedLayout(s: string, b: nat, p: Pair)
    requires b + |RenderPair(p)| <= |s| && s[b..b + |RenderPair(p)|] == RenderPair(p)
    ensures var k := |p.key|; var v := |p.value|;
      && b + k + v + 6 <= |s|
      && s[b] == '\n' && s[b + 1] == ' ' && s[b + 2] == ' '
      && s[b + 3..b + 3 + k] == p.key
      && s[b + 3 + k] == ':' && s[b + 4 + k] == ' '
      && s[b + 5 + k..b + 5 + k + v] == p.value
      && s[b + 5 + k + v] == ','
  {
    var k := |p.key|;
    var v := |p.value|;
    var t := RenderPair(p);
    RenderPairLayout(p);
    assert forall j :: 0 <= j < |t| ==> s[b + j] == t[j];
    assert s[b + 3..b + 3 + k] == t[3..3 + k];
    assert s[b + 5 + k..b + 5 + k + v] == t[5 + k..5 + k + v];
    assert s[b + 5 + k + v] == t[5 + k + v];
    assert s[b] == t[0] && s[b + 1] == t[1] && s[b + 2] == t[2];
    assert s[b + 3 + k] == t[3 + k] && s[b + 4 + k] == t[4 + k];
  }

  /** A rendered entry, wherever it sits, read stage by stage. */
  lemma RenderedStages(s: string, b: nat, p: Pair)
    requires ValidKey(p.key) && ValidValue(p.value)
    requires b + |RenderPair(p)| <= |s| && s[b..b + |RenderPair(p)|] == RenderPair(p)
    ensures var k := |p.key|; var v := |p.value|;
      && |RenderPair(p)| == k + v + 6 && p == Pair(s[b + 3..b + 3 + k], s[b + 5 + k..b + 5 + k + v])
      && KeyAt(s, b) == Some((b + 3, b + 3 + k)) && ValueStart(s, b + 3 + k) == b + 5 + k
      && ValueEnd(s, b + 5 + k) == Some(b + 5 + k + v) && PairEnd(s, b + 5 + k + v) == b + k + v + 6
  {
    RenderPairLayout(p);
    RenderedLayout(s, b, p);
    PairLaidOut(s, b, |p.key|, |p.value|);
  }

  /** The match table's entry at `p`, assembled from the three stages of the match there. */
  lemma HitFromParts(s: string, p: nat, q1: nat, q2: nat, q3: nat, q4: nat, pair: Pair, e: nat)
    requires p < |s| && q3 <= |s|
    requires KeyAt(s, p) == Some((q1, q2)) && ValueStart(s, q2) == q3
    requires ValueEnd(s, q3) == Some(q4) && PairEnd(s, q4) == e
    requires q1 <= q2 <= |s| && q3 <= q4 <= |s| && pair == Pair(s[q1..q2], s[q3..q4])
    ensures PairHits(s)[p] == Some((pair, e))
  {
    PairFromParts(s, p, q1, q2, q3, q4, pair, e);
    HitAt(s, |s|, p);
  }

  /** A rendered entry, wherever it sits, is matched exactly and the scan resumes after it. */
  lemma HitRendered(s: string, b: nat, p: Pair)
    requires ValidKey(p.key) && ValidValue(p.value)
    requires b + |RenderPair(p)| <= |s| && s[b..b + |RenderPair(p)|] == RenderPair(p)
    ensures PairHits(s)[b] == Some((p, b + |RenderPair(p)|))
  {
    RenderedStages(s, b, p);
    HitFromParts(s, b, b + 3, b + 3 + |p.key|, b + 5 + |p.key|, b + 5 + |p.key| + |p.value|,
      p, b + |RenderPair(p)|);
  }

  /** After the key's colon, one space, then the value. */
  lemma AfterKey(s: string, c: nat)
    requires c + 2 < |s| && s[c + 1] == ' ' && (s[c + 2] == '"' || IsDigit(s[c + 2]))
    ensures ValueStart(s, c) == c + 2
  {
    RunExact(s, c + 1, 1, Space);
  }

  /** The indentation and the key of a rendered entry are read as such. */
  lemma KeyRendered(s: string, b: nat, key: string)
    requires ValidKey(key) && b + 3 + |key| < |s|
    requires s[b] == '\n' && s[b + 1] == ' ' && s[b + 2] == ' '
    requires s[b + 3..b + 3 + |key|] == key && s[b + 3 + |key|] == ':'
    ensures KeyAt(s, b) == Some((b + 3, b + 3 + |key|))
  {
    assert forall i :: 0 <= i < |key| ==> s[b + 3 + i] == key[i];
    RunExact(s, b, 3, Space);
    RunExact(s, b + 3, |key|, Word);
  }

  /** The comma right after a value ends the match. */
  lemma EndRendered(s: string, q: nat)
    requires q < |s| && s[q] == ','
    ensures PairEnd(s, q) == q + 1
  {
    RunExact(s, q, 0, Space);
  }

  /** The length of an entry as the console prints it. */
  function EntryLength(p: Pair): nat {
    |p.key| + |p.value| + 6
  }

  function RenderedLength(ps: seq<Pair>): nat {
    if |ps| == 0 then 0 else EntryLength(ps[0]) + RenderedLength(ps[1..])
  }

  /** The table holds the entries `ps` back to back from `b` on. */
  predicate TableHolds(m: seq<Option<(Pair, nat)>>, b: nat, ps: seq<Pair>)
    decreases |ps|
  {
    |ps| == 0 || (b < |m| && m[b] == Some((ps[0], b + EntryLength(ps[0]))) && TableHolds(m, b + EntryLength(ps[0]), ps[1..]))
  }

  /** Entries held back to back are scanned in order, and the scan goes on after them. */
  lemma {:induction false} ScanHeld(m: seq<Option<(Pair, nat)>>, b: nat, ps: seq<Pair>)
    requires HitsForward(m) && b + RenderedLength(ps) <= |m| && TableHolds(m, b, ps)
    ensures Scan(m, b) == ps + Scan(m, b + RenderedLength(ps))
    decreases |ps|
  {
    if |ps| > 0 {
      var e := b + EntryLength(ps[0]);
      ScanHeld(m, e, ps[1..]);
      assert [ps[0]] + ps[1..] == ps;
    }
  }

  lemma RenderedLengthIs(ps: seq<Pair>)
    ensures |Render(ps)| == RenderedLength(ps)
  {
    if |ps| > 0 {
      RenderPairLayout(ps[0]);
      RenderedLengthIs(ps[1..]);
    }
  }

  /** The rendered entries starting at `b` are what the match table holds there. */
  lemma {:induction false} RenderedHeld(s: string, b: nat, ps: seq<Pair>)
    requires ValidPairs(ps)
    requires b + |Render(ps)| <= |s| && s[b..b + |Render(ps)|] == Render(ps)
    ensures TableHolds(PairHits(s), b, ps)
    decreases |ps|
  {
    if |ps| > 0 {
      var first := RenderPair(ps[0]);
      var rest := Render(ps[1..]);
      var e := b + |first|;
      assert s[b..e] == first && s[e..e + |rest|] == rest && e + |rest| == b + |Render(ps)| by {
        assert Render(ps) == first + rest;
        assert s[b..e] == (first + rest)[..|first|] == first;
        assert s[e..e + |rest|] == (first + rest)[|first|..] == rest;
      }
      assert ValidPairs(ps[1..]) && ValidKey(ps[0].key) && ValidValue(ps[0].value);
      assert |first| == EntryLength(ps[0]) by { RenderPairLayout(ps[0]); }
      HitRendered(s, b, ps[0]);
      RenderedHeld(s, e, ps[1..]);
    }
  }

  /** The rendered entries starting at `b` are found in order, and the scan goes on after them. */
  lemma RenderedFound(s: string, b: nat, ps: seq<Pair>)
    requires ValidPairs(ps)
    requires b + |Render(ps)| <= |s| && s[b..b + |Render(ps)|] == Render(ps)
    ensures FindAll(s, b) == ps + FindAll(s, b + |Render(ps)|)
  {
    RenderedHeld(s, b, ps);
    RenderedLengthIs(ps);
    ScanHeld(PairHits(s), b, ps);
  }

  /** Whitespace alone holds no pair. */
  lemma {:induction false} NoPairsInSpace(s: string, p: nat)
    requires p <= |s| && forall i :: p <= i < |s| ==> IsSpace(s[i])
    ensures FindAll(s, p) == []
    decreases |s| - p
  {
    if p < |s| {
      var q1 := p + Run(s, p, Space);
      assert q1 == |s|;
      HitAt(s, |s|, p);
      assert PairHits(s)[p] == None;
      NoPairsInSpace(s, p + 1);
    }
  }

  /** Printing valid pairs and extracting them again gives the same pairs, in order, duplicates included. */
  lemma ExtractRendered(ps: seq<Pair>)
    requires ValidPairs(ps)
    ensures FindAll(Render(ps), 0) == ps
  {
    var s := Render(ps);
    assert s[0..|s|] == s;
    RenderedFound(s, 0, ps);
    NoPairsInSpace(s, |s|);
  }

  lemma {:induction false} NoBraceRendered(ps: seq<Pair>)
    requires ValidPairs(ps) && forall i :: 0 <= i < |ps| ==> '}' !in ps[i].value
    ensures '}' !in Render(ps)
  {
    if |ps| > 0 {
      var p := ps[0];
      assert forall i :: 0 <= i < |p.key| ==> p.key[i] != '}';
      assert '}' !in RenderPair(p);
      NoBraceRendered(ps[1..]);
    }
  }

  /**
    The whole path for the snippet the Firebase console prints: the object is
    found, its body is everything between the braces, and the pairs come back
    as they were printed. A quoted value holding `}` would end the body early.
  */
  lemma SnippetExtracted(ps: seq<Pair>)
    requires |ps| > 0 && ValidPairs(ps)
    requires forall i :: 0 <= i < |ps| ==> '}' !in ps[i].value
    ensures SearchConfig(ConfigOpening + (Render(ps) + "\n") + "};") == Some(Render(ps) + "\n")
    ensures FindAll(Render(ps) + "\n", 0) == ps
  {
    var body := Render(ps) + "\n";
    assert body != "" && '}' !in body by { NoBraceRendered(ps); }
    ConfigFound(body);
    BodyExtracted(ps);
  }

  /** The body ends with the newline before `};`, which holds no pair. */
  lemma BodyExtracted(ps: seq<Pair>)
    requires ValidPairs(ps)
    ensures FindAll(Render(ps) + "\n", 0) == ps
  {
    var body := Render(ps) + "\n";
    assert body[0..|Render(ps)|] == Render(ps);
    RenderedFound(body, 0, ps);
    NoPairsInSpace(body, |Render(ps)|);
  }

  // ---------------------------------------------------------------------------
  // The existing .env file

  /**
    Lines 91-93 for one line: a line holding `=` is stripped and split at its
    first `=` into key and value; other lines are skipped.
  */
  function EnvEntry(line: string): (r: Option<(string, string)>)
    ensures r.None? <==> '=' !in line
    ensures r.Some? ==> '=' !in r.value.0 && r.value.0 + "=" + r.value.1 == Strip(line)
  {
    if '=' in line then
      var t := Strip(line);
      assert '=' in t by { StripKeepsNonSpace(line, '='); }
      var k := IndexOf(t, '=');
      SplitAtFirst(t, '=');
      Some((t[..k], t[k + 1..]))
    else None
  }

  /** One line's effect on the dictionary. */
  function EnvStep(m: map<string, string>, line: string): map<string, string> {
    match EnvEntry(line)
    case None => m
    case Some((k, v)) => m[k := v]
  }

  /** The dictionary built from the lines read so far: a later line overwrites an earlier key. */
  function EnvMap(lines: seq<string>): map<string, string> {
    if |lines| == 0 then map[] else EnvStep(EnvMap(lines[..|lines| - 1]), lines[|lines| - 1])
  }

  /** Extending the lines read so far by one line applies one step. */
  lemma EnvMapPrefix(lines: seq<string>, i: nat)
    requires i < |lines|
    ensures EnvMap(lines[..i + 1]) == EnvStep(EnvMap(lines[..i]), lines[i])
  {
    assert lines[..i + 1][..i] == lines[..i];
  }

  /** Lines 87-93: reading an existing `.env` file line by line. */
  method ReadEnv(lines: seq<string>) returns (env: map<string, string>)
    ensures env == EnvMap(lines)
  {
    env := map[];
    var i := 0;
    while i < |lines|
      invariant 0 <= i <= |lines|
      invariant env == EnvMap(lines[..i])
    {
      var entry := EnvEntry(lines[i]);
      if entry.Some? {
        env := env[entry.value.0 := entry.value.1];
      }
      EnvMapPrefix(lines, i);
      i := i + 1;
    }
    assert lines[..i] == lines;
  }

  /** A key is in the dictionary exactly when some line defines it. */
  lemma {:induction false} EnvMapKeys(lines: seq<string>, k: string)
    ensures k in EnvMap(lines) <==>
      exists i :: 0 <= i < |lines| && EnvEntry(lines[i]).Some? && EnvEntry(lines[i]).value.0 == k
  {
    if |lines| > 0 {
      var init := lines[..|lines| - 1];
      EnvMapKeys(init, k);
      assert forall i :: 0 <= i < |init| ==> init[i] == lines[i];
    }
  }

  /** The value kept for a key is the one on the last line that defines it. */
  lemma {:induction false} EnvMapLastWins(lines: seq<string>, i: nat, k: string, v: string)
    requires i < |lines| && EnvEntry(lines[i]) == Some((k, v))
    requires forall j :: i < j < |lines| && EnvEntry(lines[j]).Some? ==> EnvEntry(lines[j]).value.0 != k
    ensures k in EnvMap(lines) && EnvMap(lines)[k] == v
  {
    var init := lines[..|lines| - 1];
    if i < |lines| - 1 {
      assert forall j :: 0 <= j < |init| ==> init[j] == lines[j];
      EnvMapLastWins(init, i, k, v);
    }
  }

  // ---------------------------------------------------------------------------
  // New variables

  /** `f"{prefix}{key.upper()}"` */
  function EnvName(prefix: string, key: string): (r: string)
    ensures StartsWith(r, prefix) && |r| == |prefix| + |key|
    ensures forall i :: 0 <= i < |key| ==> r[|prefix| + i] == UpperChar(key[i])
  {
    assert (prefix + Upper(key))[..|prefix|] == prefix;
    prefix + Upper(key)
  }

  /** `f'{env_key}={value}'` */
  function Assignment(prefix: string, p: Pair): string {
    EnvName(prefix, p.key) + "=" + p.value
  }

  /** The assignments for the pairs whose variable is not yet defined, in snippet order. */
  function NewVars(pairs: seq<Pair>, prefix: string, existing: map<string, string>): seq<string> {
    if |pairs| == 0 then []
    else
      var last := pairs[|pairs| - 1];
      NewVars(pairs[..|pairs| - 1], prefix, existing)
      + (if EnvName(prefix, last.key) in existing then [] else [Assignment(prefix, last)])
  }

  /** Lines 95-99. */
  method NewEnvVars(pairs: seq<Pair>, prefix: string, existing: map<string, string>) returns (vars: seq<string>)
    ensures vars == NewVars(pairs, prefix, existing)
  {
    vars := [];
    var i := 0;
    while i < |pairs|
      invariant 0 <= i <= |pairs|
      invariant vars == NewVars(pairs[..i], prefix, existing)
    {
      var envKey := EnvName(prefix, pairs[i].key);
      if envKey !in existing {
        vars := vars + [envKey + "=" + pairs[i].value];
      }
      assert pairs[..i + 1][..i] == pairs[..i];
      i := i + 1;
    }
    assert pairs[..i] == pairs;
  }

  /** An assignment is emitted exactly for a pair whose variable is not defined yet. */
  lemma {:induction false} NewVarsMembership(pairs: seq<Pair>, prefix: string, existing: map<string, string>, a: string)
    ensures a in NewVars(pairs, prefix, existing) <==>
      exists i :: 0 <= i < |pairs| && EnvName(prefix, pairs[i].key) !in existing && a == Assignment(prefix, pairs[i])
  {
    if |pairs| > 0 {
      var init := pairs[..|pairs| - 1];
      NewVarsMembership(init, prefix, existing, a);
      assert forall i :: 0 <= i < |init| ==> init[i] == pairs[i];
    }
  }

  /** Nothing is emitted exactly when every variable is already defined. */
  lemma {:induction false} NewVarsEmpty(pairs: seq<Pair>, prefix: string, existing: map<string, string>)
    ensures NewVars(pairs, prefix, existing) == [] <==>
      forall i :: 0 <= i < |pairs| ==> EnvName(prefix, pairs[i].key) in existing
  {
    if |pairs| > 0 {
      var init := pairs[..|pairs| - 1];
      NewVarsEmpty(init, prefix, existing);
      assert forall i :: 0 <= i < |init| ==> init[i] == pairs[i];
    }
  }

  /** With no variable defined yet, every pair is emitted, in order, repeated keys included. */
  lemma {:induction false} NewVarsAllNew(pairs: seq<Pair>, prefix: string, existing: map<string, string>)
    requires forall i :: 0 <= i < |pairs| ==> EnvName(prefix, pairs[i].key) !in existing
    ensures |NewVars(pairs, prefix, existing)| == |pairs|
    ensures forall i :: 0 <= i < |pairs| ==> NewVars(pairs, prefix, existing)[i] == Assignment(prefix, pairs[i])
  {
    if |pairs| > 0 {
      var init := pairs[..|pairs| - 1];
      NewVarsAllNew(init, prefix, existing);
    }
  }

  // ---------------------------------------------------------------------------
  // The whole conversion

  datatype Outcome =
    | NoInput
    | NoConfig
    | NoPairs
    | NothingNew
    | Appended(prefix: string, vars: seq<string>, text: string)

  const AppendHeader: string := "\n# Firebase Configuration added by script\n"

  /** The variables already defined: none when there is no `.env` file. */
  function Existing(envFile: Option<seq<string>>): map<string, string> {
    match envFile
    case None => map[]
    case Some(lines) => EnvMap(lines)
  }

  /**
    `create_env_file_from_firebase_config()`, with the console, the file
    system and the prefix prompt as parameters. `Appended` carries the text
    written to the end of `.env`.
  */
  method CreateEnvFileFromFirebaseConfig(inputLines: seq<string>, viteConfigExists: bool,
                                         packageJson: Option<string>, userInput: string,
                                         envFile: Option<seq<string>>) returns (o: Outcome)
    ensures o.NoInput? <==> forall i :: 0 <= i < |inputLines| ==> AllSpace(inputLines[i])
    ensures o.NoConfig? <==> !o.NoInput? && SearchConfig(Lines(inputLines)).None?
    ensures o.NoPairs? <==>
      && !o.NoInput?
      && SearchConfig(Lines(inputLines)).Some?
      && FindAll(SearchConfig(Lines(inputLines)).value, 0) == []
    ensures o.NothingNew? || o.Appended? ==>
      var body := SearchConfig(Lines(inputLines)).value;
      var prefix := NormalizePrefix(userInput, DetectProjectType(viteConfigExists, packageJson).prefix);
      && SearchConfig(Lines(inputLines)).Some?
      && FindAll(body, 0) != []
      && (o.NothingNew? <==> NewVars(FindAll(body, 0), prefix, Existing(envFile)) == [])
      && (o.Appended? ==> o.prefix == prefix && o.vars == NewVars(FindAll(body, 0), prefix, Existing(envFile)))
    ensures o.Appended? ==> o.vars != [] && o.text == AppendHeader + Lines(o.vars)
  {
    var input := ReadSnippet(inputLines);
    if Strip(input) == "" {
      return NoInput;
    }
    var detected := DetectProjectType(viteConfigExists, packageJson);
    var prefix := NormalizePrefix(userInput, detected.prefix);
    var found := SearchConfig(input);
    if found.None? {
      return NoConfig;
    }
    var pairs := FindAll(found.value, 0);
    if pairs == [] {
      return NoPairs;
    }
    var existing: map<string, string> := map[];
    if envFile.Some? {
      existing := ReadEnv(envFile.value);
    }
    var vars := NewEnvVars(pairs, prefix, existing);
    if vars == [] {
      return NothingNew;
    }
    var text := ReadSnippet(vars);
    return Appended(prefix, vars, AppendHeader + text);
  }
}
