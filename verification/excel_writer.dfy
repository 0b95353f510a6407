/** src/excel_writer.py: the filename sanitiser, the unique counter and the
    name and record `save_single_pdf_qa` writes. */
module ExcelWriter {
  import opened Common
  import opened Strings

  // ---------------------------------------------------------------------------
  // `os.path.splitext(filename)[0]` with POSIX rules.
  // ---------------------------------------------------------------------------

  /** `s.rfind(c)`: the last index holding `c`, or -1. */
  function LastIndexOf(s: string, c: char): (k: int)
    ensures -1 <= k < |s|
    ensures k != -1 ==> s[k] == c
    ensures forall i | k < i < |s| :: s[i] != c
  {
    LastBefore(s, c, |s|)
  }

  /** The last index below `n` holding `c`, or -1. */
  function LastBefore(s: string, c: char, n: nat): (k: int)
    requires n <= |s|
    ensures -1 <= k < n
    ensures k != -1 ==> s[k] == c
    ensures forall i | k < i < n :: s[i] != c
    decreases n
  {
    if n == 0 then -1
    else if s[n - 1] == c then n - 1
    else LastBefore(s, c, n - 1)
  }

  predicate HasNonDot(s: string, lo: int, hi: int) {
    exists i | lo <= i < hi :: 0 <= i < |s| && s[i] != '.'
  }

  /** The root of `splitext`: the text before the last dot of the last path
      component, unless that component has no dot or only leading dots. The
      path comes back whole exactly when no dot of its last component has a
      non-dot character of that component before it. */
  function SplitExtRoot(p: string): (root: string)
    ensures root <= p
    ensures root != p ==> |root| < |p| && p[|root|] == '.'
    ensures root != p ==> forall i | |root| < i < |p| :: p[i] != '.'
    ensures root != p ==> forall i | |root| <= i < |p| :: p[i] != '/'
    ensures root != p ==> HasNonDot(p, LastIndexOf(p, '/') + 1, |root|)
    ensures root == p ==> forall i | LastIndexOf(p, '/') < i < |p| && p[i] == '.' ::
      !HasNonDot(p, LastIndexOf(p, '/') + 1, i)
  {
    var sepIndex := LastIndexOf(p, '/');
    var dotIndex := LastIndexOf(p, '.');
    if dotIndex > sepIndex && HasNonDot(p, sepIndex + 1, dotIndex) then
      var root := p[..dotIndex];
      assert |root| == dotIndex;
      root
    else p
  }

  /** Adding an extension to a name whose last component has a non-dot
      character and no dot after it, then splitting it off, gives the name. */
  lemma SplitExtRootOfExtension(name: string, ext: string)
    requires '.' !in ext && '/' !in ext
    requires HasNonDot(name, LastIndexOf(name, '/') + 1, |name|)
    ensures SplitExtRoot(name + ['.'] + ext) == name
  {
    var p := name + ['.'] + ext;
    forall i | |name| < i < |p|
      ensures p[i] != '.'
    {
      assert p[i] == ext[i - |name| - 1];
    }
    assert p[|name|] == '.';
    assert LastIndexOf(p, '.') == |name|;
    SlashesOfExtension(name, ext);
    var k := LastIndexOf(name, '/');
    var i :| k + 1 <= i < |name| && 0 <= i < |name| && name[i] != '.';
    assert p[i] == name[i];
    assert p[..|name|] == name;
  }

  /** The extension adds no `/`, so the last one stays where it was. */
  lemma SlashesOfExtension(name: string, ext: string)
    requires '/' !in ext
    ensures LastIndexOf(name + ['.'] + ext, '/') == LastIndexOf(name, '/')
  {
    var p := name + ['.'] + ext;
    var k := LastIndexOf(name, '/');
    forall i | k < i < |p|
      ensures p[i] != '/'
    {
      if i < |name| {
        assert p[i] == name[i];
      } else if i > |name| {
        assert p[i] == ext[i - |name| - 1];
      }
    }
    assert k != -1 ==> p[k] == name[k];
  }

  // ---------------------------------------------------------------------------
  // `_sanitize_filename`.
  // ---------------------------------------------------------------------------

  /** `[<>:"/\\|?*\x00-\x1f]` */
  predicate IsIllegal(c: char) {
    c == '<' || c == '>' || c == ':' || c == '"' || c == '/' || c == '\\'
    || c == '|' || c == '?' || c == '*' || c <= '\U{1f}'
  }

  const MaxLength: nat := 200
  const TrimChars: set<char> := {'.', ' '}

  /** `re.sub(illegal_chars, '_', s)` */
  function ReplaceIllegal(s: string): (r: string)
    ensures |r| == |s|
    ensures forall i | 0 <= i < |r| :: !IsIllegal(r[i])
    ensures forall i | 0 <= i < |s| :: !IsIllegal(s[i]) ==> r[i] == s[i]
  {
    if s == [] then [] else [if IsIllegal(s[0]) then '_' else s[0]] + ReplaceIllegal(s[1..])
  }

  /** A legal file name: none of the illegal characters, no dot or space at
      either end, non-empty and at most `MaxLength` characters. */
  predicate IsCleanName(s: string) {
    0 < |s| <= MaxLength
    && (forall i | 0 <= i < |s| :: !IsIllegal(s[i]))
    && s[0] !in TrimChars && s[|s| - 1] !in TrimChars
  }

  /** `_sanitize_filename(filename)`: the root of `splitext`, cleaned. */
  function SanitizeFilename(filename: string): (r: string)
    ensures 0 < |r| <= MaxLength
    ensures forall i | 0 <= i < |r| :: !IsIllegal(r[i])
    ensures r[0] !in TrimChars
    ensures |r| < MaxLength ==> r[|r| - 1] !in TrimChars
    ensures r[|r| - 1] in TrimChars ==> |SplitExtRoot(filename)| > MaxLength
  {
    CleanStem(SplitExtRoot(filename))
  }

  /** The body of `_sanitize_filename` after `splitext`: illegal characters
      replaced, dots and spaces stripped, `"unnamed"` for nothing left, and
      the length capped. */
  function CleanStem(stem: string): (r: string)
    ensures 0 < |r| <= MaxLength
    ensures forall i | 0 <= i < |r| :: !IsIllegal(r[i])
    ensures r[0] !in TrimChars
    ensures |r| < MaxLength ==> r[|r| - 1] !in TrimChars
    ensures r[|r| - 1] in TrimChars ==> |Strip(ReplaceIllegal(stem), TrimChars)| > MaxLength
    ensures r[|r| - 1] in TrimChars ==> |stem| > MaxLength
  {
    var replaced := ReplaceIllegal(stem);
    var trimmed := Strip(replaced, TrimChars);
    StripKeepsLegal(replaced, TrimChars);
    var named := OrUnnamed(trimmed);
    var r := Take(named, MaxLength);
    assert forall i | 0 <= i < |r| :: r[i] == named[i];
    r
  }

  /** `trimmed or "unnamed"`: keeps a legal, trimmed name non-empty. */
  function OrUnnamed(trimmed: string): (named: string)
    requires forall i | 0 <= i < |trimmed| :: !IsIllegal(trimmed[i])
    requires trimmed == [] || (trimmed[0] !in TrimChars && trimmed[|trimmed| - 1] !in TrimChars)
    ensures |named| > 0 && named[0] !in TrimChars && named[|named| - 1] !in TrimChars
    ensures forall i | 0 <= i < |named| :: !IsIllegal(named[i])
    ensures trimmed != [] ==> named == trimmed
  {
    UnnamedIsClean();
    if |trimmed| == 0 then Unnamed else trimmed
  }

  /** The name used when nothing is left. */
  const Unnamed: string := "unnamed"

  lemma UnnamedIsClean()
    ensures IsCleanName(Unnamed)
  {
    assert Unnamed[0] == 'u' && Unnamed[6] == 'd';
  }

  lemma StripKeepsLegal(s: string, chars: set<char>)
    requires forall i | 0 <= i < |s| :: !IsIllegal(s[i])
    ensures forall i | 0 <= i < |Strip(s, chars)| :: !IsIllegal(Strip(s, chars)[i])
  {
    var r := Strip(s, chars);
    forall i | 0 <= i < |r|
      ensures !IsIllegal(r[i])
    {
      assert r[i] == s[StripStart(s, chars) + i];
    }
  }

  /** A stem that is already clean is kept as it is. */
  lemma SanitizeKeepsCleanStem(filename: string)
    requires IsCleanName(SplitExtRoot(filename))
    ensures SanitizeFilename(filename) == SplitExtRoot(filename)
  {
    CleanStemKeepsCleanName(SplitExtRoot(filename));
  }

  lemma CleanStemKeepsCleanName(stem: string)
    requires IsCleanName(stem)
    ensures CleanStem(stem) == stem
  {
    assert ReplaceIllegal(stem) == stem;
    assert StripStart(stem, TrimChars) == 0;
    assert TrailStart(stem, TrimChars, |stem|) == |stem|;
  }

  /** `name + ".pdf"` with a clean `name` sanitises to `name`. */
  lemma SanitizePdfName(name: string)
    requires IsCleanName(name)
    ensures SanitizeFilename(name + ".pdf") == name
  {
    assert forall i | 0 <= i < |name| :: name[i] != '/';
    assert name[0..] == name;
    assert HasNonDot(name, 0, |name|) by { assert name[0] != '.'; }
    assert name + ".pdf" == name + ['.'] + "pdf";
    SplitExtRootOfExtension(name, "pdf");
    SanitizeKeepsCleanStem(name + ".pdf");
  }

  /** Sanitising is not idempotent: a dot left inside the result is taken
      for an extension the second time. */
  lemma SanitizeIsNotIdempotent()
    ensures SanitizeFilename("a.b" + ".pdf") == "a.b"
    ensures SanitizeFilename("a.b") == "a"
  {
    assert IsCleanName("a.b");
    SanitizePdfName("a.b");
    SanitizeDottedStem();
  }

  lemma SanitizeDottedStem()
    ensures SanitizeFilename("a.b") == "a"
  {
    var stem, ext := "a", "b";
    assert stem[0] != '.' && LastIndexOf(stem, '/') == -1;
    SplitExtRootOfExtension(stem, ext);
    assert stem + ['.'] + ext == "a.b";
    assert IsCleanName(stem);
    SanitizeKeepsCleanStem("a.b");
  }

  // ---------------------------------------------------------------------------
  // `{n:0Nd}` and the JSON file name.
  // ---------------------------------------------------------------------------

  function DigitChar(d: nat): char
    requires d < 10
  {
    '0' + d as char
  }

  /** `str(n)` for a non-negative `n`. */
  function Decimal(n: nat): (s: string)
    ensures |s| >= 1
    ensures forall i | 0 <= i < |s| :: '0' <= s[i] <= '9'
  {
    if n < 10 then [DigitChar(n)] else Decimal(n / 10) + [DigitChar(n % 10)]
  }

  function Zeros(k: nat): (z: string)
    ensures |z| == k && forall i | 0 <= i < k :: z[i] == '0'
  {
    if k == 0 then [] else Zeros(k - 1) + ['0']
  }

  /** `f"{n:0{width}d}"`: left-padded with zeros to `width`, never cut. */
  function ZeroPad(n: nat, width: nat): (s: string)
    ensures |s| == if |Decimal(n)| < width then width else |Decimal(n)|
    ensures forall i | 0 <= i < |s| :: '0' <= s[i] <= '9'
  {
    var digits := Decimal(n);
    Zeros(PadCount(|digits|, width)) + digits
  }

  /** How many zeros `{n:0Nd}` puts in front of `digits` digits. */
  function PadCount(digits: nat, width: nat): nat {
    if digits < width then width - digits else 0
  }

  /** The number a string of decimal digits denotes. */
  function DigitsValue(s: string): nat
    requires forall i | 0 <= i < |s| :: '0' <= s[i] <= '9'
  {
    if s == [] then 0 else DigitsValue(s[..|s| - 1]) * 10 + (s[|s| - 1] - '0') as nat
  }

  lemma {:induction false} DecimalRoundTrip(n: nat)
    ensures DigitsValue(Decimal(n)) == n
  {
    if n >= 10 {
      DecimalRoundTrip(n / 10);
      var s := Decimal(n);
      assert s[..|s| - 1] == Decimal(n / 10);
    }
  }

  lemma {:induction false} LeadingZerosAreIgnored(k: nat, s: string)
    requires forall i | 0 <= i < |s| :: '0' <= s[i] <= '9'
    ensures DigitsValue(Zeros(k) + s) == DigitsValue(s)
    decreases |s|
  {
    var z := Zeros(k) + s;
    if s == [] {
      assert z == Zeros(k);
      ZerosValue(k);
    } else {
      assert z[..|z| - 1] == Zeros(k) + s[..|s| - 1];
      LeadingZerosAreIgnored(k, s[..|s| - 1]);
    }
  }

  lemma {:induction false} ZerosValue(k: nat)
    ensures DigitsValue(Zeros(k)) == 0
  {
    if k > 0 {
      assert Zeros(k)[..k - 1] == Zeros(k - 1);
      ZerosValue(k - 1);
    }
  }

  /** The padded text denotes the number: reading it back gives `n`. */
  lemma ZeroPadRoundTrip(n: nat, width: nat)
    ensures DigitsValue(ZeroPad(n, width)) == n
  {
    var digits := Decimal(n);
    DecimalRoundTrip(n);
    LeadingZerosAreIgnored(PadCount(|digits|, width), digits);
  }

  /** `f"{sanitized_name}_{timestamp}_{microsecond:06d}_{counter:04d}.json"` */
  function JsonFileName(name: string, timestamp: string, microsecond: nat, counter: nat): string {
    name + "_" + timestamp + "_" + ZeroPad(microsecond, 6) + "_" + ZeroPad(counter, 4) + ".json"
  }

  /** Two saves with different counters get different file names, whatever
      the name, timestamp and microsecond. */
  lemma JsonFileNameSeparatesCounters(name: string, timestamp: string, microsecond: nat, c1: nat, c2: nat)
    requires c1 != c2
    ensures JsonFileName(name, timestamp, microsecond, c1) != JsonFileName(name, timestamp, microsecond, c2)
  {
    var prefix := name + "_" + timestamp + "_" + ZeroPad(microsecond, 6) + "_";
    ZeroPadRoundTrip(c1, 4);
    ZeroPadRoundTrip(c2, 4);
    assert ZeroPad(c1, 4) != ZeroPad(c2, 4);
    SameAffixes(prefix, ZeroPad(c1, 4), ZeroPad(c2, 4), ".json");
  }

  lemma SameAffixes(prefix: string, a: string, b: string, suffix: string)
    ensures prefix + a + suffix == prefix + b + suffix ==> a == b
  {
    if prefix + a + suffix == prefix + b + suffix {
      assert a == (prefix + a + suffix)[|prefix|..|prefix| + |a|];
      assert b == (prefix + b + suffix)[|prefix|..|prefix| + |b|];
    }
  }

  // ---------------------------------------------------------------------------
  // The writer.
  // ---------------------------------------------------------------------------

  type Metadata = map<string, string>

  /** The JSON object `save_single_pdf_qa` writes. */
  datatype JsonRecord = JsonRecord(
    source: string, metadata: Metadata, qaPairs: seq<QAPair>,
    generatedAt: string, totalQaPairs: nat, threadId: string)

  class ExcelWriter {
    const outputDir: string
    var fileCounter: nat

    /** `ExcelWriter(output_dir)`: the counter starts at 0. */
    constructor (outputDir: string)
      ensures this.outputDir == outputDir && fileCounter == 0
    {
      this.outputDir := outputDir;
      fileCounter := 0;
    }

    /** `_get_unique_counter`: advances the counter and returns its new value,
        so the first call returns 1 and each call returns more than any
        earlier one. */
    method GetUniqueCounter() returns (counter: nat)
      modifies this
      ensures fileCounter == old(fileCounter) + 1
      ensures counter == fileCounter
    {
      fileCounter := fileCounter + 1;
      counter := fileCounter;
    }

    /** `save_single_pdf_qa`. The clock reading (`timestamp`, `microsecond`),
        the thread name and whether the file could be written are inputs. The
        written record is returned next to the path. The counter advances
        even when writing fails. */
    method SaveSinglePdfQa(qaPairs: seq<QAPair>, source: string, metadata: Option<Metadata>, mode: string,
                           timestamp: string, microsecond: nat, threadName: string, writeOk: bool)
      returns (path: string, written: Option<JsonRecord>)
      modifies this
      ensures fileCounter == old(fileCounter) + 1
      ensures writeOk ==>
        path == outputDir + "/" + mode + "/" + JsonFileName(SanitizeFilename(source), timestamp, microsecond, fileCounter)
      ensures writeOk ==> (written.Some?
        && written.value.totalQaPairs == |written.value.qaPairs| && written.value.qaPairs == qaPairs
        && written.value.metadata == (if metadata.Some? then metadata.value else map[])
        && written.value.source == source && written.value.generatedAt == timestamp)
      ensures !writeOk ==> path == "" && written == None
    {
      var sanitizedName := SanitizeFilename(source);
      var counter := GetUniqueCounter();
      var jsonFilename := JsonFileName(sanitizedName, timestamp, microsecond, counter);
      var jsonData := JsonRecord(source, metadata.GetOr(map[]), qaPairs, timestamp, |qaPairs|, threadName);
      if writeOk {
        path, written := outputDir + "/" + mode + "/" + jsonFilename, Some(jsonData);
      } else {
        path, written := "", None;
      }
    }
  }
}
