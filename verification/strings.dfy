/** The few Python `str` operations the core relies on, as total functions on
    `seq<char>` (one `char` per code point, as Python's `str`). */
module Strings {

  /** The characters for which Python's `str.isspace()` holds: what `str.strip()`
      removes and what the regular-expression class `\s` matches on `str`. */
  predicate IsSpace(c: char) {
    '\t' <= c <= '\r' || '\U{1c}' <= c <= '\U{1f}' || c == ' '
    || c == '\U{85}' || c == '\U{a0}' || c == '\U{1680}'
    || '\U{2000}' <= c <= '\U{200a}'
    || c == '\U{2028}' || c == '\U{2029}' || c == '\U{202f}' || c == '\U{205f}' || c == '\U{3000}'
  }

  const Whitespace: set<char> := set c: char | IsSpace(c)

  /** `r` is what remains of `s` after dropping some prefix. */
  predicate IsSuffixOf(r: string, s: string) {
    |r| <= |s| && s[|s| - |r|..] == r
  }

  /** `s.lstrip(chars)`: drops the longest prefix made of characters in `chars`
      (a character SET, not a prefix string). */
  function LStrip(s: string, chars: set<char>): (r: string)
    ensures IsSuffixOf(r, s)
    ensures r == [] || r[0] !in chars
    ensures forall i | 0 <= i < |s| - |r| :: s[i] in chars
  {
    s[LeadEnd(s, chars, 0)..]
  }

  /** The first index from `i` on whose character is not in `chars`, or `|s|`. */
  function LeadEnd(s: string, chars: set<char>, i: nat): (k: nat)
    requires i <= |s|
    ensures i <= k <= |s|
    ensures k < |s| ==> s[k] !in chars
    ensures forall j | i <= j < k :: s[j] in chars
    decreases |s| - i
  {
    if i < |s| && s[i] in chars then LeadEnd(s, chars, i + 1) else i
  }

  /** The index after which every character below `n` is in `chars`, and
      before which the character (if any) is not. */
  function TrailStart(s: string, chars: set<char>, n: nat): (k: nat)
    requires n <= |s|
    ensures k <= n
    ensures k > 0 ==> s[k - 1] !in chars
    ensures forall j | k <= j < n :: s[j] in chars
    decreases n
  {
    if n > 0 && s[n - 1] in chars then TrailStart(s, chars, n - 1) else n
  }

  /** Where `s.lstrip(chars)` starts in `s`. */
  function StripStart(s: string, chars: set<char>): (k: nat)
    ensures k <= |s|
    ensures LStrip(s, chars) == s[k..]
    ensures forall j | 0 <= j < k :: s[j] in chars
  {
    LeadEnd(s, chars, 0)
  }

  /** `s.strip(chars)`; `s.strip()` is `Strip(s, Whitespace)`: the run of `s`
      from `StripStart` on, with no character of `chars` at either end, and
      only characters of `chars` before and after it. */
  function Strip(s: string, chars: set<char>): (r: string)
    ensures StripStart(s, chars) + |r| <= |s|
    ensures r == [] || (r[0] !in chars && r[|r| - 1] !in chars)
    ensures forall i | 0 <= i < |r| :: r[i] == s[StripStart(s, chars) + i]
    ensures forall j | StripStart(s, chars) + |r| <= j < |s| :: s[j] in chars
  {
    var a := StripStart(s, chars);
    var b := if a == |s| then a else TrailStart(s, chars, |s|);
    s[a..b]
  }

  /** `not s.strip()`: the line holds nothing but whitespace. */
  predicate IsBlank(s: string) {
    forall i | 0 <= i < |s| :: IsSpace(s[i])
  }

  /** `IsBlank` is `not s.strip()`: stripping whitespace leaves nothing
      exactly when every character is whitespace. */
  lemma BlankIffStripEmpty(s: string)
    ensures IsBlank(s) <==> Strip(s, Whitespace) == []
  {
    var r := Strip(s, Whitespace);
    if r != [] {
      assert s[StripStart(s, Whitespace)] == r[0];
    } else {
      assert StripStart(s, Whitespace) == |s|;
      forall i | 0 <= i < |s|
        ensures IsSpace(s[i])
      {
        assert s[i] in Whitespace;
      }
    }
  }

  /** `s[:n]` for a non-negative `n`. */
  function Take(s: string, n: nat): (r: string)
    ensures r <= s && |r| == if n <= |s| then n else |s|
  {
    if n <= |s| then s[..n] else s
  }

  /** `pat` occurs in `s` starting at index `i`: `s[i:i + len(pat)] == pat`. */
  predicate OccursAt(s: string, pat: string, i: int) {
    0 <= i && i + |pat| <= |s| && forall j | 0 <= j < |pat| :: s[i + j] == pat[j]
  }

  /** `pat in s`. */
  predicate Contains(s: string, pat: string) {
    exists i | 0 <= i <= |s| :: OccursAt(s, pat, i)
  }

  /** `s.find(pat)`: the first index at which `pat` occurs, or -1. */
  function Find(s: string, pat: string): (r: int)
    ensures r == -1 || OccursAt(s, pat, r)
    ensures r == -1 <==> !Contains(s, pat)
    ensures forall i | 0 <= i < r :: !OccursAt(s, pat, i)
  {
    FindFrom(s, pat, 0)
  }

  function FindFrom(s: string, pat: string, from: nat): (r: int)
    requires from <= |s|
    requires forall i | 0 <= i < from :: !OccursAt(s, pat, i)
    ensures r == -1 || (from <= r && OccursAt(s, pat, r))
    ensures r == -1 <==> !Contains(s, pat)
    ensures forall i | 0 <= i < r :: !OccursAt(s, pat, i)
    decreases |s| - from
  {
    if OccursAt(s, pat, from) then from
    else if from == |s| then
      assert forall i | 0 <= i <= |s| :: !OccursAt(s, pat, i);
      -1
    else FindFrom(s, pat, from + 1)
  }

  /** `sep.join(parts)`. */
  function Join(parts: seq<string>, sep: string): string {
    if |parts| == 0 then ""
    else if |parts| == 1 then parts[0]
    else parts[0] + sep + Join(parts[1..], sep)
  }

  /** `s.find(c)` for a single character, in the form the splitters use. */
  function IndexOf(s: string, c: char): (k: int)
    ensures k == -1 <==> c !in s
    ensures k != -1 ==> 0 <= k < |s| && s[k] == c && c !in s[..k]
  {
    var k := IndexFrom(s, c, 0);
    assert k != -1 ==> forall j | 0 <= j < k :: s[..k][j] != c;
    k
  }

  /** The first index at or after `i` holding `c`, or -1. */
  function IndexFrom(s: string, c: char, i: nat): (k: int)
    requires i <= |s|
    ensures k == -1 ==> forall j | i <= j < |s| :: s[j] != c
    ensures k != -1 ==> i <= k < |s| && s[k] == c
    ensures forall j | i <= j < k :: s[j] != c
    decreases |s| - i
  {
    if i == |s| then -1
    else if s[i] == c then i
    else IndexFrom(s, c, i + 1)
  }

  /** The index of the first occurrence is the only index with nothing before it. */
  lemma IndexOfFirst(s: string, c: char, n: nat)
    requires n < |s| && s[n] == c && c !in s[..n]
    ensures IndexOf(s, c) == n
  {
    assert forall j | 0 <= j < n :: s[..n][j] == s[j];
  }

  /** `s.split(sep)` for a one-character separator: the pieces between
      separators, never an empty list, and joining them back gives `s`. */
  function Split(s: string, sep: char): (parts: seq<string>)
    ensures |parts| >= 1
    ensures forall i | 0 <= i < |parts| :: sep !in parts[i]
    ensures Join(parts, [sep]) == s
    decreases |s|
  {
    var k := IndexOf(s, sep);
    if k == -1 then [s]
    else
      var rest := Split(s[k + 1..], sep);
      var parts := [s[..k]] + rest;
      assert parts[1..] == rest;
      assert s == s[..k] + [sep] + s[k + 1..];
      parts
  }

  /** Splitting a join whose pieces hold no separator gives the pieces back. */
  lemma {:induction false} SplitJoin(parts: seq<string>, sep: char)
    requires |parts| >= 1
    requires forall i | 0 <= i < |parts| :: sep !in parts[i]
    ensures Split(Join(parts, [sep]), sep) == parts
  {
    var s := Join(parts, [sep]);
    if |parts| > 1 {
      var tail := Join(parts[1..], [sep]);
      assert s == parts[0] + [sep] + tail;
      var n := |parts[0]|;
      assert s[..n] == parts[0];
      assert s[n] == sep;
      IndexOfFirst(s, sep, n);
      assert s[n + 1..] == tail;
      assert Split(s, sep) == [parts[0]] + Split(tail, sep);
      SplitJoin(parts[1..], sep);
      assert parts == [parts[0]] + parts[1..];
    }
  }

  /** `os.path.basename(path)`: what follows the last `/`. */
  function BaseName(path: string): (name: string)
    ensures IsSuffixOf(name, path)
    ensures '/' !in name
    ensures |name| < |path| ==> path[|path| - |name| - 1] == '/'
    decreases |path|
  {
    if path == [] || path[|path| - 1] == '/' then []
    else BaseName(path[..|path| - 1]) + [path[|path| - 1]]
  }
}
