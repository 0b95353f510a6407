# pdf_build_qa: a Dafny model of the question–answer pipeline's core

pdf_build_qa turns PDF papers into question–answer datasets, in four steps:

1. It extracts each PDF's text and recognises formulas.
2. It asks a language model for questions, then for one answer per question.
3. It writes the pairs of each PDF to a JSON file.
4. Two scripts clean the answers and compute length statistics.

This project models the sequential logic of that pipeline in Dafny and proves what it promises. It covers:

- **Formula detection and merging** (`src/pdf_processor.py`):
  - the block classifier `_is_likely_formula`;
  - the OCR step of `_detect_and_extract_formulas` (margin clip, length filter);
  - `_integrate_content`, which sorts formulas by (page, y) and merges `[FORMULA: …]` marker lines into the text;
  - the whitespace normalisation at the end of `extract_text_from_pdf`.
- **Per-document bookkeeping** (`src/qa_generator.py`):
  - `process_pdf`, with its early exits and the answer-collection loop;
  - `generate_qa_from_pdfs`, which splits documents into results and failed files.
- **The writer** (`src/excel_writer.py`): `_sanitize_filename`, the unique counter, and the file name and record built by `save_single_pdf_qa`.
- **Statistics** (`stat.py`): `calculate_distribution`, and the counting loop of `collect_statistics`.
- **Answer cleanup** (`post_process.py`): `process_question`, `process_answer` and `post_process`.

Anything outside the program is an input to the model: what the PDF library, the OCR model and the language-model client return, and the order in which worker threads finish. Python's `str` operations the code relies on (`strip`, `lstrip`, `find`, `split`, `join`, `os.path.basename`, `os.path.splitext`) are written out in `strings.dfy` and `excel_writer.dfy`.

Files:

| file | module | models |
|---|---|---|
| common.dfy | Common | `Option`, the `{"question", "answer"}` pair, small sequence lemmas |
| strings.dfy | Strings | the `str` primitives |
| pdf_processor.dfy | PdfProcessor | the classifier, OCR step and normalisation |
| content_integration.dfy | ContentIntegration | `_integrate_content` |
| qa_generator.dfy | QaGenerator | `process_pdf`, `generate_qa_from_pdfs` |
| excel_writer.dfy | ExcelWriter | the sanitiser, counter and save step |
| stat.dfy | Stat | `calculate_distribution`, `collect_statistics` |
| post_process.dfy | PostProcess | `process_answer`, `post_process` |

The merge in `_integrate_content` is specified by a function, `Placement`. It describes the output as a sequence of items:

- each source line;
- the inline markers placed after a line;
- the trailing markers flushed at the end.

The method `IntegrateContent` is proved to render exactly that sequence. The lemmas then prove what the merge guarantees: the lines are kept in order, each formula appears once in (page, y) order, and every inline marker sits where the heuristic allows.

Where the code and its documentation disagree, the model follows the code:

- `generate_qa_from_pdfs` with no PDF files returns `([], [])` without resetting `failed_files`. The reset at src/qa_generator.py:286 comes after that early return.
- `lstrip("\n---\n")` strips a character set, not a prefix. After a `---` rule the following space stays (`RuleLeavesSpace`).

## Model

| member | source | states |
|---|---|---|
| Strings.LStrip | post_process.py:25-29 | `s.lstrip(chars)` is a suffix of `s`, does not start with a character of `chars`, and everything it dropped is in `chars` |
| Strings.Strip | src/pdf_processor.py:97 | `s.strip(chars)` is the run of `s` from the first non-`chars` character, with no `chars` character at either end and only `chars` characters after it |
| Strings.BlankIffStripEmpty | src/pdf_processor.py:327 | `not s.strip()` holds exactly when every character of `s` is whitespace |
| Strings.Take | src/excel_writer.py:73-74 | `s[:n]` is a prefix of `s` of length `min(n, len(s))` |
| Strings.Find | post_process.py:54 | `s.find(pat)` is the first index where `pat` occurs, and -1 exactly when it does not occur |
| Strings.IndexOf | post_process.py:35 | `s.find(c)` is -1 exactly when `c` is absent, else an index holding `c` with no earlier `c` |
| Strings.IndexOfFirst | post_process.py:39 | the first index holding `c` is what `find` returns |
| Strings.Split | src/pdf_processor.py:311 | `s.split(sep)` is a non-empty list of separator-free pieces that join back to `s` |
| Strings.SplitJoin | src/pdf_processor.py:345 | splitting the join of separator-free pieces gives the pieces back |
| Strings.BaseName | src/qa_generator.py:186 | `os.path.basename(p)` is the suffix of `p` after its last `/` and holds no `/` |
| PdfProcessor.SeqMaxMinBound | src/pdf_processor.py:134-135 | `max` and `min` of the font sizes are elements of the list that bound every element |
| PdfProcessor.SizeVariationHasTwoSizes | src/pdf_processor.py:134-135 | the spread test `max - min > 2` on a non-empty list holds exactly when `len(set(sizes)) > 1 and max - min > 2` does: a spread above 2 already needs two distinct sizes |
| PdfProcessor.IsLikelyFormula | src/pdf_processor.py:77-169 | an accepted block has `lines` and a `bbox`, and its stripped text is non-empty and at most 200 characters |
| PdfProcessor.FormulaRuleOrderFree | src/pdf_processor.py:143-167 | the guarded returns agree with "passes every filter and shows one of the three signals": the filters' order does not matter |
| PdfProcessor.ProseIsNeverFormula | src/pdf_processor.py:107-117 | more than 4 CJK ideographs or more than 5 English words rejects the block, even with math symbols |
| PdfProcessor.FlatOrWideIsNeverFormula | src/pdf_processor.py:138-150 | zero height or width over 400 rejects the block whatever its text |
| PdfProcessor.NumericGuardIsRedundant | src/pdf_processor.py:164-167 | text with an operator character is never "digits, dots and whitespace only", so the guard at 166 never rejects |
| PdfProcessor.NumbersAreNeverFormula | src/pdf_processor.py:120-167 | a block whose text is only digits, dots and whitespace is never accepted |
| PdfProcessor.NumericCharIsNoSymbol | src/pdf_processor.py:120 | no digit, dot or whitespace character is in the math-symbol class |
| PdfProcessor.ExpandClip | src/pdf_processor.py:203-208 | the margin clip lies inside the page and contains the block's box wherever the box is inside the page |
| PdfProcessor.Classify | src/pdf_processor.py:191-197 | one OCR decision per block of the page |
| PdfProcessor.Detected | src/pdf_processor.py:218-224 | a block yields one formula exactly when it was sent to OCR and the result is a string longer than 5 characters; the formula is the block's box and that string |
| PdfProcessor.DetectionsAreKept | src/pdf_processor.py:218-224 | at most one formula per block, and every kept formula's markup is longer than 5 characters |
| PdfProcessor.Clipped | src/pdf_processor.py:199-212 | a candidate block is rendered through exactly one clip, the expanded box |
| PdfProcessor.ClipsStayInPage | src/pdf_processor.py:203-212 | at most one clip per block, and every clip lies inside the page |
| PdfProcessor.DetectAndExtractFormulas | src/pdf_processor.py:182-227 | with OCR off the page yields nothing; otherwise the loop returns exactly the specified formulas and clips, in block order |
| PdfProcessor.ScanBlock | src/pdf_processor.py:191-225 | one pass of the block loop adds exactly the next block's clip and formula |
| PdfProcessor.CollapseWhitespace | src/pdf_processor.py:399 | `re.sub(r'\s+', ' ', s)` holds no whitespace but the plain space, never two in a row, is empty exactly when `s` is, and starts and ends with whitespace exactly when `s` does |
| PdfProcessor.CollapseKeepsWords | src/pdf_processor.py:399 | `re.sub(r'\s+', ' ', s).split() == s.split()`: collapsing keeps every word, in order |
| PdfProcessor.CapBlankLinesWithoutNewline | src/pdf_processor.py:400-401 | `re.sub(r'(\n\s*){3,}', '\n\n', s)` leaves text without newlines unchanged |
| PdfProcessor.NormalizeFlattensLines | src/pdf_processor.py:399-401 | the normalised text is one line and the blank-line cap never changes anything |
| ContentIntegration.InsertByKey | src/pdf_processor.py:308 | inserting a formula adds exactly that formula to the multiset |
| ContentIntegration.InsertByKeySorted | src/pdf_processor.py:308 | inserting into a list sorted by (page, y0) keeps it sorted |
| ContentIntegration.SortByKey | src/pdf_processor.py:308 | `formulas.sort(key=(page, y0))` is sorted by that key and a permutation of its input |
| ContentIntegration.InsertByKeyWithKeyOf | src/pdf_processor.py:308 | inserting a formula puts it before every formula with the same key |
| ContentIntegration.SortIsStable | src/pdf_processor.py:308 | the sort is stable: formulas with equal keys keep their input order |
| ContentIntegration.Render | src/pdf_processor.py:319-342 | one output line per item: the source line, or `[FORMULA: latex]` for a marker |
| ContentIntegration.IntegrateContent | src/pdf_processor.py:291-345 | no formulas gives `structured_text or basic_text`; otherwise the output is the specified placement of the sorted formulas among the lines, joined by newlines |
| ContentIntegration.MergeLine | src/pdf_processor.py:319-331 | a loop pass copies line `i` and appends the pending formula's marker exactly when the next line is blank and the formula is on the current page |
| ContentIntegration.NextPage | src/pdf_processor.py:333-337 | the page counter grows by one exactly after a blank line between two non-blank lines |
| ContentIntegration.FlushRemaining | src/pdf_processor.py:339-343 | the closing loop appends one marker per formula not yet placed, in order |
| ContentIntegration.LoopStep | src/pdf_processor.py:318-337 | one pass keeps "output so far + output still to come" equal to the whole placement |
| ContentIntegration.TrailingShape | src/pdf_processor.py:339-343 | the flushed items are exactly the remaining formulas' markers, with no source line |
| ContentIntegration.PlaceFromHead | src/pdf_processor.py:319-331 | the items of one line are the line and at most one marker, the pending formula's |
| ContentIntegration.PlacementKeepsLines | src/pdf_processor.py:318-320 | deleting the markers gives back the lines, in order |
| ContentIntegration.PlacementEmitsEachFormulaOnce | src/pdf_processor.py:318-343 | the markers are exactly the sorted formulas, each once, in order |
| ContentIntegration.PlacementIsSortedMerge | src/pdf_processor.py:308-345 | the output keeps every line; its markers are sorted by (page, y0), a permutation of the input formulas, and stable on equal keys |
| ContentIntegration.InlineMarkersAreWellPlaced | src/pdf_processor.py:322-331 | every inline marker follows its line, is followed by the next line, which is blank, and carries a formula of the page estimated at that line |
| ContentIntegration.InlineMarkerIsWellPlaced | src/pdf_processor.py:322-331 | the same, for the marker at one position |
| ContentIntegration.HeadIsWellPlaced | src/pdf_processor.py:322-331 | a line carries at most one marker, right after it, and that marker is well placed |
| ContentIntegration.InsertedMarkerIsWellPlaced | src/pdf_processor.py:326-331 | the marker placed after line `i` sits between line `i` and the blank line `i + 1` |
| ContentIntegration.TrailingMarkersComeLast | src/pdf_processor.py:339-343 | nothing but flushed markers follows a flushed marker |
| ContentIntegration.PageEstimateMonotone | src/pdf_processor.py:333-337 | the page counter never decreases |
| ContentIntegration.StuckFormulaBlocksTheRest | src/pdf_processor.py:322-343 | a pending formula whose page the counter has passed is never placed inline; all lines after it are copied and every remaining formula is flushed at the end |
| ContentIntegration.ItemsComeFromInputs | src/pdf_processor.py:318-343 | every output item carries one of the input lines or one of the formulas |
| ContentIntegration.MarkerHasNoBreak | src/pdf_processor.py:330 | markup without a line break gives a marker line without one |
| ContentIntegration.RenderedItemsHaveNoBreak | src/pdf_processor.py:319-345 | lines and markup without line breaks render to output lines without line breaks |
| ContentIntegration.IntegratedTextLines | src/pdf_processor.py:311-345 | when no markup holds a line break, the merged text splits back into exactly one line per item |
| QaGenerator.CollectAnswers | src/qa_generator.py:214-241 | the collection loop yields the specified pairs and failure count, and pairs + failures = completed futures |
| QaGenerator.CollectedPairsAreAnswered | src/qa_generator.py:225-233 | a collected pair is a question with its own non-empty answer, and every such question's pair is collected |
| QaGenerator.AnsweredAmongMembers | src/qa_generator.py:229-235 | the kept questions among the completed ones are exactly those with a non-empty answer |
| QaGenerator.CollectedCount | src/qa_generator.py:225-241 | when no future completes twice, one pair is collected per kept question |
| QaGenerator.CollectionIsOrderFree | src/qa_generator.py:217-244 | in any completion order, pairs = answered questions and failures = the rest, and the pairs are the same set |
| QaGenerator.CollectedCountIsOrderFree | src/qa_generator.py:217-244 | the pair and failure counts do not depend on the completion order |
| QaGenerator.CollectedPairsAreOrderFree | src/qa_generator.py:225-233 | the set of pairs does not depend on the completion order |
| QaGenerator.CollectAnswersTotal | src/qa_generator.py:214-244 | `len(qa_pairs) + failed_count == len(questions)` once every future completes |
| QaGenerator.EmptyContentFails | src/qa_generator.py:195-197 | empty content fails with no pairs and makes no client call |
| QaGenerator.NoQuestionsFails | src/qa_generator.py:206-208 | no questions fails with no pairs after the single question call, with no answer call |
| QaGenerator.SuccessIffSomeAnswer | src/qa_generator.py:246-264 | success exactly when some answer is non-empty; a failure carries no pairs; a success carries exactly the answered questions |
| QaGenerator.QAGenerator.constructor | src/qa_generator.py:37-40 | `num_qa_pairs` is kept and `failed_files` starts empty |
| QaGenerator.QAGenerator.ProcessPdf | src/qa_generator.py:176-268 | `process_pdf` returns the specified outcome and makes exactly the specified client calls |
| QaGenerator.QAGenerator.GenerateQaFromPdfs | src/qa_generator.py:279-317 | no files gives `([], [])`; otherwise the successes in completion order, and the failed filenames as a freshly reset `failed_files` |
| QaGenerator.EveryDocumentLandsOnce | src/qa_generator.py:295-306 | every document lands in exactly one of results or failed files, and every result is a success with pairs |
| ExcelWriter.LastIndexOf | src/excel_writer.py:56 | `s.rfind(c)`: the last index holding `c`, or -1 |
| ExcelWriter.SplitExtRoot | src/excel_writer.py:56 | `os.path.splitext(p)[0]`: the prefix before a last dot that is in the last path component and has a non-dot before it in that component; `p` itself only when no dot of the last component has a non-dot before it |
| ExcelWriter.SplitExtRootOfExtension | src/excel_writer.py:56 | `splitext(name + "." + ext)[0] == name` when `ext` has no dot or slash and `name`'s last component has a non-dot |
| ExcelWriter.SlashesOfExtension | src/excel_writer.py:56 | an extension without `/` leaves the last `/` where it was |
| ExcelWriter.ReplaceIllegal | src/excel_writer.py:61-62 | every illegal character becomes `_`; the others are kept; the length is unchanged |
| ExcelWriter.SanitizeFilename | src/excel_writer.py:45-76 | the name is non-empty, at most 200 characters, holds no illegal character, does not start with `.` or space, and ends with neither unless the stem after `splitext` is longer than 200 characters |
| ExcelWriter.CleanStem | src/excel_writer.py:58-76 | the same guarantees for the stem's pipeline after `splitext`; a trailing `.` or space survives only when the stripped stem is longer than 200 characters and was cut |
| ExcelWriter.OrUnnamed | src/excel_writer.py:68-69 | an empty result becomes `unnamed`; anything else is kept |
| ExcelWriter.UnnamedIsClean | src/excel_writer.py:69 | the fallback `unnamed` is itself a clean name |
| ExcelWriter.StripKeepsLegal | src/excel_writer.py:65 | stripping keeps the name free of illegal characters |
| ExcelWriter.SanitizeKeepsCleanStem | src/excel_writer.py:56-76 | a clean stem comes back unchanged |
| ExcelWriter.CleanStemKeepsCleanName | src/excel_writer.py:58-76 | the pipeline after `splitext` leaves a clean name unchanged |
| ExcelWriter.SanitizePdfName | src/excel_writer.py:56-76 | `name + ".pdf"` sanitises to `name` for a clean `name` |
| ExcelWriter.SanitizeIsNotIdempotent | src/excel_writer.py:56-76 | sanitising is not idempotent: `a.b.pdf` gives `a.b`, which gives `a` |
| ExcelWriter.SanitizeDottedStem | src/excel_writer.py:56 | `a.b` sanitises to `a` |
| ExcelWriter.Decimal | src/excel_writer.py:111 | `str(n)` is a non-empty string of decimal digits |
| ExcelWriter.ZeroPad | src/excel_writer.py:111 | `f"{n:0{w}d}"` is all digits, of length `max(w, len(str(n)))` |
| ExcelWriter.DecimalRoundTrip | src/excel_writer.py:111 | reading `str(n)` back gives `n` |
| ExcelWriter.LeadingZerosAreIgnored | src/excel_writer.py:111 | leading zeros do not change the number a digit string denotes |
| ExcelWriter.ZeroPadRoundTrip | src/excel_writer.py:111 | reading the zero-padded counter back gives the counter: the padding is injective |
| ExcelWriter.JsonFileNameSeparatesCounters | src/excel_writer.py:110-111 | with the same name, timestamp and microsecond, different counters give different file names |
| ExcelWriter.ExcelWriter.constructor | src/excel_writer.py:29-35 | the counter starts at 0 |
| ExcelWriter.ExcelWriter.GetUniqueCounter | src/excel_writer.py:78-87 | the counter advances by one and the new value is returned, so the first call returns 1 and later calls return more |
| ExcelWriter.ExcelWriter.SaveSinglePdfQa | src/excel_writer.py:89-149 | the counter always advances; on success the path is built from the sanitised name, timestamp, microsecond and new counter, and the record has `total_qa_pairs == len(qa_pairs)` and `metadata or {}`; on failure the path is `""` |
| Stat.Insert | stat.py:72 | inserting into a sorted list keeps it sorted and adds exactly that element |
| Stat.SortAscending | stat.py:72 | `sorted(lengths)` is ascending and a permutation of its input |
| Stat.Bin | stat.py:91-95 | a length goes to the first bin whose threshold it does not exceed |
| Stat.BinsPartitionLengths | stat.py:87-95 | bin `b` holds exactly the lengths in the range its label names |
| Stat.BinCountsSumToLength | stat.py:91-95 | every length is counted in exactly one bin: the counts sum to the number of lengths |
| Stat.LabelsAreDistinct | stat.py:88 | the seven bin labels are distinct |
| Stat.HistogramCounts | stat.py:89-97 | the histogram maps each label of a non-empty bin to its count and holds no other key |
| Stat.CalculateDistribution | stat.py:67-101 | an empty list gives `None`; otherwise the specified summary |
| Stat.CountIntoBins | stat.py:89-96 | the nested binning loop builds exactly the histogram |
| Stat.BinIndex | stat.py:92-95 | the inner loop with `break` finds the bin of the length |
| Stat.MinMaxBoundAll | stat.py:72-78 | `count` is n, and `min` and `max` are elements of the list that bound every element |
| Stat.QuantilesAreOrdered | stat.py:77-82 | min ≤ p25 ≤ median ≤ p75 ≤ max |
| Stat.QuartilesOfSorted | stat.py:80-82 | in a sorted list, first element ≤ p25 ≤ median ≤ p75 ≤ last element |
| Stat.DistributionCoversAll | stat.py:86-99 | with max == min the distribution is empty; otherwise its counts cover every length, once |
| Stat.SumBounds | stat.py:79 | a sum of `n` values in `[lo, hi]` lies in `[n·lo, n·hi]` |
| Stat.MeanIsBetweenMinAndMax | stat.py:79 | the mean lies between min and max |
| Stat.CollectStatistics | stat.py:21-64 | no files gives `None`; otherwise the specified document set, length lists, pair count and file count |
| Stat.ScanPairs | stat.py:47-52 | the inner loop collects exactly the lengths of the present questions and answers |
| Stat.LengthsWithinPairs | stat.py:47-52 | a file contributes no more question (or answer) lengths than pairs |
| Stat.CollectionBounds | stat.py:30-52 | question and answer length counts are each at most `total_qa_pairs`, and `len(documents)` is at most the number of files |
| PostProcess.ProcessQuestion | post_process.py:14-15 | `process_question` is the identity |
| PostProcess.StripLeadIn | post_process.py:25-29 | the three left-strips leave text that does not start with a newline or `-` |
| PostProcess.DropOkSentence | post_process.py:20-29 | an answer opening with 好的 loses its lead-in and no longer starts with a newline or `-`; any other answer is unchanged |
| PostProcess.SentenceEnd | post_process.py:35-43 | the cut point is -1 exactly when the answer has neither `：` nor `。` |
| PostProcess.DropSourceSentences | post_process.py:32-51 | the loop never lengthens the answer |
| PostProcess.DropQuestionEcho | post_process.py:53-63 | an answer that does not echo the question is unchanged |
| PostProcess.StripLeadInIsSuffix | post_process.py:25-29 | the left-strips leave a suffix |
| PostProcess.CutIsSuffix | post_process.py:37-50 | cutting at an index and stripping leaves a suffix |
| PostProcess.DropSourceSentencesIsSuffix | post_process.py:32-51 | the loop leaves a suffix of its input |
| PostProcess.DropOkSentenceIsSuffix | post_process.py:20-29 | the 好的 step leaves a suffix |
| PostProcess.DropQuestionEchoIsSuffix | post_process.py:53-63 | the question-echo step leaves a suffix |
| PostProcess.CleanAnswerIsSuffix | post_process.py:18-64 | `process_answer` returns a suffix of its input |
| PostProcess.ProcessAnswer | post_process.py:18-64 | the three steps in order compute the specified cleaned answer |
| PostProcess.OkBlock | post_process.py:20-29 | the 好的 block computes its specified step |
| PostProcess.EchoBlock | post_process.py:53-63 | the question-echo block computes its specified step |
| PostProcess.CleanupLoop | post_process.py:32-51 | the `while` loop terminates and computes its specified step |
| PostProcess.CutSentence | post_process.py:34-50 | a cut happens exactly when `：` or `。` occurs, and strictly shortens the answer |
| PostProcess.CleanupDone | post_process.py:32 | the loop leaves an answer that fails its guard unchanged |
| PostProcess.CleanupStops | post_process.py:42-43 | the loop stops on an answer without `：` or `。` |
| PostProcess.CleanupStep | post_process.py:34-51 | one pass cuts after the first sentence and strips the lead-in |
| PostProcess.UntouchedAnswer | post_process.py:18-64 | an answer with no 好的 opening, no stock phrase in its first 100 characters and no question echo is returned unchanged |
| PostProcess.CleanupLoopExit | post_process.py:32-43 | on exit no stock phrase is in the first 100 characters, or the answer starts with `###`, or it has neither `：` nor `。` |
| PostProcess.RuleLeavesSpace | post_process.py:29 | `lstrip("\n---\n")` removes a `---` rule but keeps the space after it |
| PostProcess.PairDict.constructor | post_process.py:70-71 | a dictionary holds the given question and answer |
| PostProcess.PostProcess | post_process.py:67-74 | the same dictionaries come back in the same order, questions unchanged, each answer cleaned once per occurrence of its dictionary |
| PostProcess.DistinctPairsAreCleanedOnce | post_process.py:67-74 | without repeated dictionaries each answer is cleaned exactly once |

## Left out

- PDF and OCR libraries: PyPDF2, PyMuPDF's `get_text`/`get_pixmap`, pdfplumber, PIL and LatexOCR are not modelled. The page blocks, page size and OCR outcomes they produce are inputs; `_process_with_pymupdf` and `_process_with_pdfplumber` are not part of this model.
- The language-model client (`DeepSeekClient`) is not part of this model. Its question list and each answer are inputs that either return a value or raise; a `None` is the empty list or string, since the code only tests them for truth.
- Thread pools, `as_completed` and the locks: collection is a sequential loop over a completion order given as input, a permutation of the submitted tasks. Concurrency itself is not modelled.
- Clocks, file I/O and logging: `datetime.now()`, the thread name and whether the JSON file could be written are inputs to `SaveSinglePdfQa`; directory listing, `json.load`/`json.dump`, `os.makedirs`, `os.path.abspath` and every log message are left out. `os.path.join` is modelled as joining with `/`.
- Floats: font sizes and coordinates are `real`, without rounding; `aspect_ratio` is computed but unused by the source and is left out; elapsed times and the printed averages are left out.
- Regular-expression classes: `\s` is the set `str.isspace()` accepts. `\d` is ASCII and fullwidth digits, and `\w` (which places `\b`) is ASCII letters, digits, `_`, Latin-1 letters, Greek letters and CJK ideographs. Other Unicode digits and letters are not covered.
- `os.path.splitext` follows the POSIX rules (only `/` separates components); the Windows variant is not modelled.
- PdfProcessor.Detected: the formula's box is `BoxOf(block)`, the `bbox` with `(0, 0, 0, 0)` for a missing one; for blocks that pass the classifier it is the block's `bbox`.
- Stat.CollectStatistics: a JSON file is either unreadable or an object with an optional `source` and optional `qa_pairs` list; a `qa_pairs` that is not a list counts as no pairs, and a pair that is not an object is not modelled.
- Stat.CollectStatistics: a `question` or `answer` without `len()` (a number, say) raises inside the loop at src/stat.py:48-52, and the source keeps the lengths already appended from that file and the pairs already counted; the model reads a file whole or not at all.
- PostProcess.PostProcess: a pair without a `question` or `answer` key raises `KeyError` at post_process.py:70-71, and a non-string answer raises at `startswith`; `main` then stops the program (post_process.py:86-90). A `PairDict` always holds two strings, so that path is not modelled.
- ContentIntegration.SortByKey: `formulas.sort` at src/pdf_processor.py:308 sorts the caller's list in place; the model sorts a copy. The caller only uses `len(formulas)` afterwards, so nothing it observes changes.
- Stat.ScanPairs and Stat.CountIntoBins return the lengths or counts of one file or list; the caller appends them, rather than appending element by element to the shared list.
- QaGenerator.QAGenerator.GenerateQaFromPdfs: the `except` at src/qa_generator.py:304-306 is not reachable, because `process_pdf` catches every exception itself; it is not modelled.
- The CLI of main.py and the statistics printer are left out. main.py passes an `excel_writer` argument that `QAGenerator` does not accept, so that save path is not wired in the source either.
