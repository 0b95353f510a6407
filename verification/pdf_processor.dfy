/** Formula-block classification, the OCR clip and filter, and the final
    whitespace normalisation of the PDF processor (src/pdf_processor.py). */
module PdfProcessor {
  import opened Common
  import opened Strings

  // ---------------------------------------------------------------------------
  // Layout blocks, as PyMuPDF's `page.get_text("dict")` returns them. Every
  // dictionary key the classifier reads with `.get` may be missing: `None`.
  // Font sizes and coordinates are floats in the source; `real` here.
  // ---------------------------------------------------------------------------

  datatype Span = Span(text: Option<string>, size: Option<real>)
  datatype Line = Line(spans: Option<seq<Span>>)
  datatype BBox = BBox(x0: real, y0: real, x1: real, y1: real)
  datatype Block = Block(lines: Option<seq<Line>>, bbox: Option<BBox>)

  /** `line.get("spans", [])` */
  function SpansOf(line: Line): seq<Span> {
    line.spans.GetOr([])
  }

  /** The concatenated text of some spans, `span.get("text", "")` each. */
  function SpanText(spans: seq<Span>): string {
    if spans == [] then "" else spans[0].text.GetOr("") + SpanText(spans[1..])
  }

  /** The text of all lines, in order, before stripping. */
  function LinesText(lines: seq<Line>): string {
    if lines == [] then "" else SpanText(SpansOf(lines[0])) + LinesText(lines[1..])
  }

  /** `block_text` after `.strip()`. */
  function BlockText(lines: seq<Line>): string {
    Strip(LinesText(lines), Whitespace)
  }

  /** The font sizes of some spans, `span.get("size", 0)` each. */
  function SpanSizes(spans: seq<Span>): seq<real> {
    if spans == [] then [] else [spans[0].size.GetOr(0.0)] + SpanSizes(spans[1..])
  }

  function FontSizes(lines: seq<Line>): seq<real> {
    if lines == [] then [] else SpanSizes(SpansOf(lines[0])) + FontSizes(lines[1..])
  }

  // ---------------------------------------------------------------------------
  // Character classes of the regular expressions, written out.
  // ---------------------------------------------------------------------------

  /** `[一-鿿]`: a CJK unified ideograph. */
  predicate IsCjk(c: char) {
    '\U{4e00}' <= c <= '\U{9fff}'
  }

  predicate IsAsciiLetter(c: char) {
    'a' <= c <= 'z' || 'A' <= c <= 'Z'
  }

  /** `\d` on `str`: ASCII and fullwidth decimal digits. */
  predicate IsDigit(c: char) {
    '0' <= c <= '9' || '\U{ff10}' <= c <= '\U{ff19}'
  }

  /** `\w` on `str`, which decides where `\b` sits: ASCII letters, digits and
      `_`, Latin-1 letters, Greek letters and CJK ideographs. */
  predicate IsWordChar(c: char) {
    || IsAsciiLetter(c) || IsDigit(c) || c == '_'
    || c == '\U{aa}' || c == '\U{b5}' || c == '\U{ba}'
    || ('\U{c0}' <= c <= '\U{ff}' && c != '\U{d7}' && c != '\U{f7}')
    || ('\U{391}' <= c <= '\U{3a9}') || ('\U{3b1}' <= c <= '\U{3c9}')
    || IsCjk(c)
  }

  /** The class `[∫∑∏√±×÷≠≈≤≥∞∂∇∈∉⊂⊃∪∩∧∨¬⊕⊗αβγδεζηθικλμνξοπρστυφχψω]`: 25 operators
      and the lower-case Greek letters from α to ω without the final sigma ς. */
  predicate IsMathSymbol(c: char) {
    || c == '∫' || c == '∑' || c == '∏' || c == '√' || c == '±' || c == '×' || c == '÷'
    || c == '≠' || c == '≈' || c == '≤' || c == '≥' || c == '∞' || c == '∂' || c == '∇'
    || c == '∈' || c == '∉' || c == '⊂' || c == '⊃' || c == '∪' || c == '∩' || c == '∧'
    || c == '∨' || c == '¬' || c == '⊕' || c == '⊗'
    || ('α' <= c <= 'ω' && c != 'ς')
  }

  // The operator class of the arithmetic pattern: + - * / = ^ _ ( ) { } [ ] < >
  predicate IsOperator(c: char) {
    || c == '+' || c == '-' || c == '*' || c == '/' || c == '=' || c == '^' || c == '_'
    || c == '(' || c == ')' || c == '{' || c == '}' || c == '[' || c == ']' || c == '<' || c == '>'
  }

  predicate HasMathSymbol(s: string) {
    exists i | 0 <= i < |s| :: IsMathSymbol(s[i])
  }

  predicate HasOperator(s: string) {
    exists i | 0 <= i < |s| :: IsOperator(s[i])
  }

  predicate HasDigit(s: string) {
    exists i | 0 <= i < |s| :: IsDigit(s[i])
  }

  /** `len(re.findall(r'[一-鿿]', s))` */
  function CjkCount(s: string): (n: nat)
    ensures n <= |s|
  {
    if s == [] then 0 else (if IsCjk(s[0]) then 1 else 0) + CjkCount(s[1..])
  }

  /** The end of the run of ASCII letters that starts at `i`. */
  function LetterRunEnd(s: string, i: nat): (j: nat)
    requires i <= |s|
    ensures i <= j <= |s|
    ensures forall k | i <= k < j :: IsAsciiLetter(s[k])
    ensures j == |s| || !IsAsciiLetter(s[j])
    decreases |s| - i
  {
    if i < |s| && IsAsciiLetter(s[i]) then LetterRunEnd(s, i + 1) else i
  }

  /** A match of `\b[a-zA-Z]{3,}\b` starts at `i`. Every ASCII letter is a word
      character, so the greedy letter run can only be followed by `\b` at its
      maximal end: a match is a maximal run of at least three ASCII letters
      with no word character on either side. */
  predicate EnglishWordAt(s: string, i: nat)
    requires i < |s|
  {
    && (i == 0 || !IsWordChar(s[i - 1]))
    && IsAsciiLetter(s[i])
    && LetterRunEnd(s, i) - i >= 3
    && (LetterRunEnd(s, i) == |s| || !IsWordChar(s[LetterRunEnd(s, i)]))
  }

  function EnglishWordsFrom(s: string, i: nat): nat
    requires i <= |s|
    decreases |s| - i
  {
    if i == |s| then 0
    else (if EnglishWordAt(s, i) then 1 else 0) + EnglishWordsFrom(s, i + 1)
  }

  /** `len(re.findall(r'\b[a-zA-Z]{3,}\b', s))` */
  function EnglishWordCount(s: string): nat {
    EnglishWordsFrom(s, 0)
  }

  /** `has_math_pattern`: an operator character and a digit. */
  predicate HasMathPattern(s: string) {
    HasOperator(s) && HasDigit(s)
  }

  /** `re.match(r'^[\d\.\s]+$', s)`: only digits, dots and whitespace. */
  predicate IsPurelyNumeric(s: string) {
    |s| > 0 && forall i | 0 <= i < |s| :: IsDigit(s[i]) || s[i] == '.' || IsSpace(s[i])
  }

  /** `max(xs)` */
  function SeqMax(xs: seq<real>): real
    requires |xs| > 0
  {
    if |xs| == 1 then xs[0]
    else
      var rest := SeqMax(xs[1..]);
      if xs[0] >= rest then xs[0] else rest
  }

  /** `min(xs)` */
  function SeqMin(xs: seq<real>): real
    requires |xs| > 0
  {
    if |xs| == 1 then xs[0]
    else
      var rest := SeqMin(xs[1..]);
      if xs[0] <= rest then xs[0] else rest
  }

  /** `max` and `min` pick an element of the list that bounds every other. */
  lemma {:induction false} SeqMaxMinBound(xs: seq<real>)
    requires |xs| > 0
    ensures SeqMax(xs) in xs && forall i | 0 <= i < |xs| :: xs[i] <= SeqMax(xs)
    ensures SeqMin(xs) in xs && forall i | 0 <= i < |xs| :: SeqMin(xs) <= xs[i]
  {
    if |xs| > 1 {
      SeqMaxMinBound(xs[1..]);
      assert forall i | 1 <= i < |xs| :: xs[i] == xs[1..][i - 1];
      assert xs == [xs[0]] + xs[1..];
    }
  }

  /** `len(set(sizes)) > 1 and max(sizes) - min(sizes) > 2`; the first
      conjunct follows from the second (see `SizeVariationHasTwoSizes`). */
  predicate HasSizeVariation(sizes: seq<real>) {
    |sizes| > 0 && SeqMax(sizes) - SeqMin(sizes) > 2.0
  }

  /** The spread test alone decides the source's two-part test: a spread
      above 2 already needs two distinct sizes. */
  lemma SizeVariationHasTwoSizes(sizes: seq<real>)
    ensures HasSizeVariation(sizes) <==>
      |sizes| > 0 && |set x | x in sizes| > 1 && SeqMax(sizes) - SeqMin(sizes) > 2.0
  {
    if HasSizeVariation(sizes) {
      SeqMaxMinBound(sizes);
      var distinct := set x | x in sizes;
      assert {SeqMax(sizes), SeqMin(sizes)} <= distinct;
      assert |{SeqMax(sizes), SeqMin(sizes)}| == 2;
      SubsetCardinality({SeqMax(sizes), SeqMin(sizes)}, distinct);
    }
  }

  lemma SubsetCardinality(a: set<real>, b: set<real>)
    requires a <= b
    ensures |a| <= |b|
  {
    assert b == a + (b - a);
  }

  /** `block.get("bbox", (0, 0, 0, 0))` */
  function BoxOf(b: Block): BBox {
    b.bbox.GetOr(BBox(0.0, 0.0, 0.0, 0.0))
  }

  function Width(box: BBox): real { box.x1 - box.x0 }
  function Height(box: BBox): real { box.y1 - box.y0 }

  /** `_is_likely_formula`: the guarded returns in source order. An accepted
      block has lines, a bounding box, and between 1 and 200 characters of text. */
  function IsLikelyFormula(b: Block): (r: bool)
    ensures r ==> b.lines.Some? && b.bbox.Some?
    ensures r ==> 0 < |BlockText(b.lines.value)| <= 200
  {
    match b.lines
    case None => false
    case Some(lines) =>
      var text := BlockText(lines);
      if |text| == 0 then false
      else if |text| > 200 then false
      else if CjkCount(text) > 4 then false
      else if EnglishWordCount(text) > 5 then false
      else
        var box := BoxOf(b);
        if Height(box) == 0.0 then false
        else if Width(box) > 400.0 then false
        else if HasMathSymbol(text) then true
        else if HasMathPattern(text) && HasSizeVariation(FontSizes(lines)) then true
        else if |lines| <= 2 && HasMathPattern(text) then !IsPurelyNumeric(text)
        else false
  }

  // ---------------------------------------------------------------------------
  // The same rule written declaratively, filters first in a different order
  // (width before the prose counts, as a design would list them), then the
  // three acceptance signals. `FormulaRuleOrderFree` shows the two agree.
  // ---------------------------------------------------------------------------

  predicate PassesFilters(lines: seq<Line>, box: BBox) {
    var text := BlockText(lines);
    && 0 < |text| <= 200
    && Width(box) <= 400.0
    && CjkCount(text) <= 4
    && EnglishWordCount(text) <= 5
    && Height(box) != 0.0
  }

  predicate HasSignal(lines: seq<Line>) {
    var text := BlockText(lines);
    || HasMathSymbol(text)
    || (HasMathPattern(text) && HasSizeVariation(FontSizes(lines)))
    || (|lines| <= 2 && HasMathPattern(text) && !IsPurelyNumeric(text))
  }

  /** Every rejection precedes every acceptance, so the order of the filters
      is immaterial: a block is a formula exactly when it passes all filters
      and shows one signal. */
  lemma FormulaRuleOrderFree(b: Block)
    ensures IsLikelyFormula(b) <==>
      b.lines.Some? && PassesFilters(b.lines.value, BoxOf(b)) && HasSignal(b.lines.value)
  {
  }

  /** Prose is rejected even when it contains mathematical symbols. */
  lemma ProseIsNeverFormula(b: Block)
    requires b.lines.Some?
    requires CjkCount(BlockText(b.lines.value)) > 4 || EnglishWordCount(BlockText(b.lines.value)) > 5
    ensures !IsLikelyFormula(b)
  {
  }

  /** A flat or wide block is rejected whatever its text. */
  lemma FlatOrWideIsNeverFormula(b: Block)
    requires Height(BoxOf(b)) == 0.0 || Width(BoxOf(b)) > 400.0
    ensures !IsLikelyFormula(b)
  {
  }

  /** An operator character is never a digit, a dot or whitespace, so the
      page-number guard of the third signal can never fire once the
      arithmetic pattern has matched. */
  lemma {:induction false} NumericGuardIsRedundant(s: string)
    requires HasMathPattern(s)
    ensures !IsPurelyNumeric(s)
  {
    var i :| 0 <= i < |s| && IsOperator(s[i]);
    assert !IsDigit(s[i]) && s[i] != '.' && !IsSpace(s[i]);
  }

  /** Page and figure numbers (digits, dots and spaces only) are never formulas:
      they hold no mathematical symbol and no operator character. */
  lemma {:induction false} NumbersAreNeverFormula(b: Block)
    requires b.lines.Some? && IsPurelyNumeric(BlockText(b.lines.value))
    ensures !IsLikelyFormula(b)
  {
    var text := BlockText(b.lines.value);
    if HasMathSymbol(text) {
      var i :| 0 <= i < |text| && IsMathSymbol(text[i]);
      NumericCharIsNoSymbol(text[i]);
    }
    if HasMathPattern(text) {
      NumericGuardIsRedundant(text);
    }
    FormulaRuleOrderFree(b);
  }

  lemma NumericCharIsNoSymbol(c: char)
    requires IsDigit(c) || c == '.' || IsSpace(c)
    ensures !IsMathSymbol(c)
  {
  }

  // ---------------------------------------------------------------------------
  // The OCR step of `_detect_and_extract_formulas`.
  // ---------------------------------------------------------------------------

  const Margin: real := 5.0

  /** The clip rendered for OCR: the block's box grown by the margin and
      clamped to the page. It never leaves the page, and it contains the
      block's box wherever that box lies inside the page. */
  function ExpandClip(box: BBox, pageWidth: real, pageHeight: real): (c: BBox)
    ensures 0.0 <= c.x0 && 0.0 <= c.y0 && c.x1 <= pageWidth && c.y1 <= pageHeight
    ensures 0.0 <= box.x0 ==> c.x0 <= box.x0
    ensures 0.0 <= box.y0 ==> c.y0 <= box.y0
    ensures box.x1 <= pageWidth ==> box.x1 <= c.x1
    ensures box.y1 <= pageHeight ==> box.y1 <= c.y1
  {
    BBox(
      if 0.0 >= box.x0 - Margin then 0.0 else box.x0 - Margin,
      if 0.0 >= box.y0 - Margin then 0.0 else box.y0 - Margin,
      if pageWidth <= box.x1 + Margin then pageWidth else box.x1 + Margin,
      if pageHeight <= box.y1 + Margin then pageHeight else box.y1 + Margin)
  }

  /** `latex and len(latex) > 5`: only non-trivial recognitions are kept. */
  predicate KeepsRecognition(latex: string) {
    |latex| > 5
  }

  /** What the OCR model produced for one block's clip, or that it raised. */
  datatype OcrOutcome = Recognized(latex: string) | OcrRaised

  /** One detected formula: the block's box and the recognised markup. */
  datatype Detection = Detection(bbox: BBox, latex: string)

  /** The blocks that `_detect_and_extract_formulas` sends to OCR. */
  predicate IsOcrCandidate(b: Block) {
    b.lines.Some? && IsLikelyFormula(b)
  }

  /** The OCR decision for every block of a page, in block order. */
  function Classify(blocks: seq<Block>): (cands: seq<bool>)
    ensures |cands| == |blocks|
  {
    seq(|blocks|, i requires 0 <= i < |blocks| => IsOcrCandidate(blocks[i]))
  }

  /** What one block contributes to the page's formulas, given whether it was
      sent to OCR: a candidate whose OCR output is kept gives one detection.
      A candidate always has a box (`IsLikelyFormula` needs one), so `BoxOf`
      is its `block["bbox"]`. */
  function Detected(candidate: bool, block: Block, outcome: OcrOutcome): (ds: seq<Detection>)
    ensures |ds| <= 1
    ensures |ds| == 1 <==> candidate && outcome.Recognized? && KeepsRecognition(outcome.latex)
    ensures |ds| == 1 ==> ds[0] == Detection(BoxOf(block), outcome.latex)
  {
    if candidate && outcome.Recognized? && KeepsRecognition(outcome.latex)
    then [Detection(BoxOf(block), outcome.latex)]
    else []
  }

  /** The detections of the first `n` blocks, in block order. */
  function Detections(blocks: seq<Block>, cands: seq<bool>, ocr: seq<OcrOutcome>, n: nat): (ds: seq<Detection>)
    requires |cands| == |blocks| && |ocr| == |blocks| && n <= |blocks|
  {
    if n == 0 then []
    else Detections(blocks, cands, ocr, n - 1) + Detected(cands[n - 1], blocks[n - 1], ocr[n - 1])
  }

  /** At most one detection per block, and every one holds a kept recognition. */
  lemma {:induction false} DetectionsAreKept(blocks: seq<Block>, cands: seq<bool>, ocr: seq<OcrOutcome>, n: nat)
    requires |cands| == |blocks| && |ocr| == |blocks| && n <= |blocks|
    ensures |Detections(blocks, cands, ocr, n)| <= n
    ensures forall k | 0 <= k < |Detections(blocks, cands, ocr, n)| ::
      KeepsRecognition(Detections(blocks, cands, ocr, n)[k].latex)
  {
    if n > 0 {
      DetectionsAreKept(blocks, cands, ocr, n - 1);
      var prev := Detections(blocks, cands, ocr, n - 1);
      var last := Detected(cands[n - 1], blocks[n - 1], ocr[n - 1]);
      assert forall k | |prev| <= k < |prev + last| :: (prev + last)[k] == last[k - |prev|];
    }
  }

  /** The clip is inside the page. */
  predicate InPage(c: BBox, pageWidth: real, pageHeight: real) {
    0.0 <= c.x0 && 0.0 <= c.y0 && c.x1 <= pageWidth && c.y1 <= pageHeight
  }

  /** The clip rendered for one block, if it was sent to OCR. */
  function Clipped(candidate: bool, block: Block, pageWidth: real, pageHeight: real): (cs: seq<BBox>)
    ensures |cs| == if candidate then 1 else 0
    ensures |cs| == 1 ==> cs[0] == ExpandClip(BoxOf(block), pageWidth, pageHeight)
  {
    if candidate then [ExpandClip(BoxOf(block), pageWidth, pageHeight)] else []
  }

  /** The clips rendered for the candidates among the first `n` blocks, in
      block order. */
  function CandidateClips(blocks: seq<Block>, cands: seq<bool>, pageWidth: real, pageHeight: real, n: nat): (cs: seq<BBox>)
    requires |cands| == |blocks| && n <= |blocks|
  {
    if n == 0 then []
    else CandidateClips(blocks, cands, pageWidth, pageHeight, n - 1) + Clipped(cands[n - 1], blocks[n - 1], pageWidth, pageHeight)
  }

  /** At most one clip per block, and none leaves the page. */
  lemma {:induction false} ClipsStayInPage(blocks: seq<Block>, cands: seq<bool>, pageWidth: real, pageHeight: real, n: nat)
    requires |cands| == |blocks| && n <= |blocks|
    ensures |CandidateClips(blocks, cands, pageWidth, pageHeight, n)| <= n
    ensures forall k | 0 <= k < |CandidateClips(blocks, cands, pageWidth, pageHeight, n)| ::
      InPage(CandidateClips(blocks, cands, pageWidth, pageHeight, n)[k], pageWidth, pageHeight)
  {
    if n > 0 {
      ClipsStayInPage(blocks, cands, pageWidth, pageHeight, n - 1);
      var prev := CandidateClips(blocks, cands, pageWidth, pageHeight, n - 1);
      var last := Clipped(cands[n - 1], blocks[n - 1], pageWidth, pageHeight);
      assert forall k | |prev| <= k < |prev + last| :: (prev + last)[k] == last[k - |prev|];
    }
  }

  /** `_detect_and_extract_formulas` for one page. OCR is an oracle indexed by
      block; `clips` lists the regions rendered for it. With OCR disabled
      nothing is rendered and nothing is found. */
  method DetectAndExtractFormulas(ocrEnabled: bool, blocks: seq<Block>, pageWidth: real,
                                  pageHeight: real, ocr: seq<OcrOutcome>)
    returns (formulas: seq<Detection>, clips: seq<BBox>)
    requires |ocr| == |blocks|
    ensures !ocrEnabled ==> formulas == [] && clips == []
    ensures ocrEnabled ==> formulas == Detections(blocks, Classify(blocks), ocr, |blocks|)
    ensures ocrEnabled ==> clips == CandidateClips(blocks, Classify(blocks), pageWidth, pageHeight, |blocks|)
  {
    formulas, clips := [], [];
    if !ocrEnabled {
      return;
    }
    var i := 0;
    while i < |blocks|
      invariant 0 <= i <= |blocks|
      invariant formulas == Detections(blocks, Classify(blocks), ocr, i)
      invariant clips == CandidateClips(blocks, Classify(blocks), pageWidth, pageHeight, i)
    {
      var clip, found := ScanBlock(blocks, ocr, pageWidth, pageHeight, i);
      clips := clips + clip;
      formulas := formulas + found;
      i := i + 1;
    }
  }

  /** One pass of the loop of `_detect_and_extract_formulas`: the clip
      rendered for block `i` and the formula kept from it, if any, extend
      what the earlier blocks gave. */
  method ScanBlock(blocks: seq<Block>, ocr: seq<OcrOutcome>, pageWidth: real, pageHeight: real, i: nat)
    returns (clip: seq<BBox>, found: seq<Detection>)
    requires |ocr| == |blocks| && i < |blocks|
    ensures CandidateClips(blocks, Classify(blocks), pageWidth, pageHeight, i) + clip
         == CandidateClips(blocks, Classify(blocks), pageWidth, pageHeight, i + 1)
    ensures Detections(blocks, Classify(blocks), ocr, i) + found == Detections(blocks, Classify(blocks), ocr, i + 1)
  {
    clip, found := [], [];
    var block := blocks[i];
    var candidate := block.lines.Some? && IsLikelyFormula(block);
    assert candidate == Classify(blocks)[i];
    if candidate {
      clip := [ExpandClip(block.bbox.value, pageWidth, pageHeight)];
      match ocr[i]
      case Recognized(latex) =>
        if |latex| > 0 && |latex| > 5 {
          found := [Detection(block.bbox.value, latex)];
        }
      case OcrRaised =>
    }
  }

  // ---------------------------------------------------------------------------
  // The post-processing of `extract_text_from_pdf`.
  // ---------------------------------------------------------------------------

  /** The end of the run of whitespace that starts at `i`. */
  function SpaceRunEnd(s: string, i: nat): (j: nat)
    requires i <= |s|
    ensures i <= j <= |s|
    ensures forall k | i <= k < j :: IsSpace(s[k])
    ensures j == |s| || !IsSpace(s[j])
    decreases |s| - i
  {
    if i < |s| && IsSpace(s[i]) then SpaceRunEnd(s, i + 1) else i
  }

  /** `re.sub(r'\s+', ' ', s)`: every maximal run of whitespace becomes one
      space. The only whitespace left is the plain space, never two in a row,
      and the text starts and ends with whitespace exactly when `s` does;
      `CollapseKeepsWords` shows the words in between are those of `s`. */
  function CollapseWhitespace(s: string): (r: string)
    ensures forall k | 0 <= k < |r| :: r[k] != '\n'
    ensures forall k | 0 <= k < |r| :: IsSpace(r[k]) ==> r[k] == ' '
    ensures forall k | 0 <= k < |r| - 1 :: !(IsSpace(r[k]) && IsSpace(r[k + 1]))
    ensures |r| > 0 <==> |s| > 0
    ensures |r| > 0 ==> (IsSpace(r[0]) <==> IsSpace(s[0]))
    ensures |r| > 0 ==> (IsSpace(r[|r| - 1]) <==> IsSpace(s[|s| - 1]))
    decreases |s|
  {
    if s == [] then []
    else if IsSpace(s[0]) then
      var rest := CollapseWhitespace(s[SpaceRunEnd(s, 0)..]);
      [' '] + rest
    else
      [s[0]] + CollapseWhitespace(s[1..])
  }

  /** `s.split()`: the maximal runs of non-whitespace characters of `s`, in
      order. Every word is non-empty and holds no whitespace. */
  function Words(s: string): (ws: seq<string>)
    ensures forall i | 0 <= i < |ws| ::
      ws[i] != [] && forall k | 0 <= k < |ws[i]| :: !IsSpace(ws[i][k])
    ensures s != [] && !IsSpace(s[0]) ==> ws != [] && ws[0][0] == s[0]
    decreases |s|
  {
    if s == [] then []
    else if IsSpace(s[0]) then Words(s[1..])
    else
      var ws := Words(s[1..]);
      if |s| > 1 && !IsSpace(s[1]) then [[s[0]] + ws[0]] + ws[1..]
      else [[s[0]]] + ws
  }

  /** Leading whitespace does not change the words. */
  lemma {:induction false} WordsSkipSpace(s: string, i: nat)
    requires i <= |s|
    requires forall k | 0 <= k < i :: IsSpace(s[k])
    ensures Words(s) == Words(s[i..])
    decreases i
  {
    if i > 0 {
      WordsSkipSpace(s[1..], i - 1);
      assert s[1..][i - 1..] == s[i..];
    }
  }

  /** Collapsing whitespace keeps the words, in order:
      `re.sub(r'\s+', ' ', s).split() == s.split()`. */
  lemma {:induction false} CollapseKeepsWords(s: string)
    ensures Words(CollapseWhitespace(s)) == Words(s)
    decreases |s|
  {
    if s != [] {
      var r := CollapseWhitespace(s);
      if IsSpace(s[0]) {
        var e := SpaceRunEnd(s, 0);
        CollapseKeepsWords(s[e..]);
        assert r[1..] == CollapseWhitespace(s[e..]);
        WordsSkipSpace(s, e);
      } else {
        CollapseKeepsWords(s[1..]);
        assert r[1..] == CollapseWhitespace(s[1..]);
      }
    }
  }

  function NewlineCount(s: string): nat {
    if s == [] then 0 else (if s[0] == '\n' then 1 else 0) + NewlineCount(s[1..])
  }

  /** `re.sub(r'(\n\s*){3,}', '\n\n', s)`. From a newline, the greedy groups
      take the whole whitespace run that follows; the match succeeds when that
      run holds at least three newlines, and is then replaced by two. */
  function CapBlankLines(s: string): string
    decreases |s|
  {
    if s == [] then []
    else if s[0] == '\n' && NewlineCount(s[..SpaceRunEnd(s, 0)]) >= 3 then
      "\n\n" + CapBlankLines(s[SpaceRunEnd(s, 0)..])
    else
      [s[0]] + CapBlankLines(s[1..])
  }

  /** The two substitutions of lines 399-401, in order. */
  function NormalizeText(s: string): string {
    CapBlankLines(CollapseWhitespace(s))
  }

  /** On text without newlines the blank-line cap has nothing to match. */
  lemma {:induction false} CapBlankLinesWithoutNewline(s: string)
    requires forall k | 0 <= k < |s| :: s[k] != '\n'
    ensures CapBlankLines(s) == s
  {
    if s != [] {
      CapBlankLinesWithoutNewline(s[1..]);
    }
  }

  /** The normalised text is one line: the first substitution already turns
      every newline into a space, so the cap on blank lines never changes
      anything. */
  lemma NormalizeFlattensLines(s: string)
    ensures NormalizeText(s) == CollapseWhitespace(s)
    ensures forall k | 0 <= k < |NormalizeText(s)| :: NormalizeText(s)[k] != '\n'
  {
    CapBlankLinesWithoutNewline(CollapseWhitespace(s));
  }
}
