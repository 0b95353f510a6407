/** `_integrate_content` of src/pdf_processor.py: recognised formulas are
    sorted by (page, y) and merged, as `[FORMULA: …]` marker lines, into the
    lines of the structured text. */
module ContentIntegration {
  import opened Strings
  import opened Common
  import opened PdfProcessor

  /** One recognised formula, the tuple `(page_num, bbox, latex)`. */
  datatype Formula = Formula(page: int, bbox: BBox, latex: string)

  // ---------------------------------------------------------------------------
  // `formulas.sort(key=lambda x: (x[0], x[1][1]))`: a stable sort on (page, y0).
  // ---------------------------------------------------------------------------

  predicate KeyLe(a: Formula, b: Formula) {
    a.page < b.page || (a.page == b.page && a.bbox.y0 <= b.bbox.y0)
  }

  predicate SameKey(a: Formula, b: Formula) {
    a.page == b.page && a.bbox.y0 == b.bbox.y0
  }

  predicate SortedByKey(fs: seq<Formula>) {
    forall i, j | 0 <= i < j < |fs| :: KeyLe(fs[i], fs[j])
  }

  /** Places `f` before the first element whose key is not smaller than its own. */
  function InsertByKey(f: Formula, sorted: seq<Formula>): (r: seq<Formula>)
    ensures multiset(r) == multiset(sorted) + multiset{f}
    ensures |r| == |sorted| + 1
  {
    if sorted == [] || KeyLe(f, sorted[0]) then [f] + sorted
    else
      var rest := InsertByKey(f, sorted[1..]);
      HeadTailMultiset(sorted);
      [sorted[0]] + rest
  }

  lemma HeadTailMultiset(s: seq<Formula>)
    requires s != []
    ensures multiset(s) == multiset{s[0]} + multiset(s[1..])
  {
    assert s == [s[0]] + s[1..];
  }

  /** Inserting into a sorted sequence keeps it sorted. */
  lemma {:induction false} InsertByKeySorted(f: Formula, sorted: seq<Formula>)
    requires SortedByKey(sorted)
    ensures SortedByKey(InsertByKey(f, sorted))
  {
    if sorted == [] || KeyLe(f, sorted[0]) {
      assert forall j | 0 <= j < |sorted| :: KeyLe(f, sorted[j]) by {
        forall j | 0 <= j < |sorted|
          ensures KeyLe(f, sorted[j])
        {
          if j > 0 {
            assert KeyLe(sorted[0], sorted[j]);
          }
        }
      }
      SortedByKeyCons(f, sorted);
    } else {
      var tail := sorted[1..];
      assert SortedByKey(tail) by {
        forall i, j | 0 <= i < j < |tail|
          ensures KeyLe(tail[i], tail[j])
        {
          assert tail[i] == sorted[i + 1] && tail[j] == sorted[j + 1];
        }
      }
      InsertByKeySorted(f, tail);
      var rest := InsertByKey(f, tail);
      assert forall j | 0 <= j < |tail| :: KeyLe(sorted[0], tail[j]) by {
        forall j | 0 <= j < |tail|
          ensures KeyLe(sorted[0], tail[j])
        {
          assert tail[j] == sorted[j + 1];
        }
      }
      KeyLowerBoundKept(sorted[0], f, tail, rest);
      SortedByKeyCons(sorted[0], rest);
    }
  }

  /** A key bound below `f` and every element of `fs` bounds a permutation of
      `fs` plus `f`. */
  lemma KeyLowerBoundKept(h: Formula, f: Formula, fs: seq<Formula>, r: seq<Formula>)
    requires KeyLe(h, f) && forall j | 0 <= j < |fs| :: KeyLe(h, fs[j])
    requires multiset(r) == multiset(fs) + multiset{f}
    ensures forall j | 0 <= j < |r| :: KeyLe(h, r[j])
  {
    forall j | 0 <= j < |r|
      ensures KeyLe(h, r[j])
    {
      assert r[j] in multiset(r);
      if r[j] != f {
        assert r[j] in multiset(fs);
      }
    }
  }

  lemma SortedByKeyCons(h: Formula, rest: seq<Formula>)
    requires SortedByKey(rest) && forall j | 0 <= j < |rest| :: KeyLe(h, rest[j])
    ensures SortedByKey([h] + rest)
  {
    var r := [h] + rest;
    forall i, j | 0 <= i < j < |r|
      ensures KeyLe(r[i], r[j])
    {
      assert r[j] == rest[j - 1];
      if i > 0 {
        assert r[i] == rest[i - 1];
      }
    }
  }

  /** Python's `list.sort` with the (page, y0) key: ordered by key and a
      permutation of its input. */
  function SortByKey(fs: seq<Formula>): (r: seq<Formula>)
    ensures SortedByKey(r)
    ensures multiset(r) == multiset(fs)
    ensures |r| == |fs|
  {
    if fs == [] then []
    else
      var rest := SortByKey(fs[1..]);
      HeadTailMultiset(fs);
      InsertByKeySorted(fs[0], rest);
      InsertByKey(fs[0], rest)
  }

  /** The elements of `fs` whose key equals that of `g`, in order. */
  function WithKeyOf(fs: seq<Formula>, g: Formula): seq<Formula> {
    if fs == [] then []
    else (if SameKey(fs[0], g) then [fs[0]] else []) + WithKeyOf(fs[1..], g)
  }

  lemma {:induction false} InsertByKeyWithKeyOf(f: Formula, sorted: seq<Formula>, g: Formula)
    ensures WithKeyOf(InsertByKey(f, sorted), g) ==
      (if SameKey(f, g) then [f] else []) + WithKeyOf(sorted, g)
  {
    if sorted == [] || KeyLe(f, sorted[0]) {
      assert ([f] + sorted)[1..] == sorted;
    } else {
      var rest := InsertByKey(f, sorted[1..]);
      assert ([sorted[0]] + rest)[1..] == rest;
      InsertByKeyWithKeyOf(f, sorted[1..], g);
      if SameKey(f, g) {
        assert !SameKey(sorted[0], g);
      }
    }
  }

  /** The sort is stable: formulas with equal keys keep their input order. */
  lemma {:induction false} SortIsStable(fs: seq<Formula>, g: Formula)
    ensures WithKeyOf(SortByKey(fs), g) == WithKeyOf(fs, g)
  {
    if fs != [] {
      SortIsStable(fs[1..], g);
      InsertByKeyWithKeyOf(fs[0], SortByKey(fs[1..]), g);
    }
  }

  // ---------------------------------------------------------------------------
  // Where the markers go. The output is described as a sequence of items:
  // the source lines, the markers placed after a line, and the markers
  // flushed at the end. `Render` turns each item into its output line.
  // ---------------------------------------------------------------------------

  datatype Item =
    | SourceLine(text: string)
    | InlineMarker(formula: Formula, after: nat)
    | TrailingMarker(formula: Formula)

  /** `f"[FORMULA: {formula_latex}]"` */
  function Marker(latex: string): string {
    "[FORMULA: " + latex + "]"
  }

  function RenderItem(item: Item): string {
    match item
    case SourceLine(text) => text
    case InlineMarker(f, _) => Marker(f.latex)
    case TrailingMarker(f) => Marker(f.latex)
  }

  function Render(items: seq<Item>): (out: seq<string>)
    ensures |out| == |items|
    ensures forall j | 0 <= j < |items| :: out[j] == RenderItem(items[j])
  {
    seq(|items|, j requires 0 <= j < |items| => RenderItem(items[j]))
  }

  /** The items left once every marker is deleted. */
  function SourceLines(items: seq<Item>): seq<string> {
    if items == [] then []
    else (if items[0].SourceLine? then [items[0].text] else []) + SourceLines(items[1..])
  }

  /** The formulas of the markers, in output order. */
  function Markers(items: seq<Item>): seq<Formula> {
    if items == [] then []
    else (if items[0].SourceLine? then [] else [items[0].formula]) + Markers(items[1..])
  }

  /** Line `m` is blank between two non-blank lines: the heuristic's page break. */
  predicate PageBreakAt(lines: seq<string>, m: nat) {
    0 < m < |lines| - 1 && IsBlank(lines[m]) && !IsBlank(lines[m - 1]) && !IsBlank(lines[m + 1])
  }

  /** The page the heuristic believes line `i` is on: the page breaks before it. */
  function PageEstimate(lines: seq<string>, i: nat): nat
    requires i <= |lines|
  {
    if i == 0 then 0 else PageEstimate(lines, i - 1) + (if PageBreakAt(lines, i - 1) then 1 else 0)
  }

  /** The pending formula `fs[k]` goes right after line `i`: the next line is
      blank and the formula is on the estimated page. */
  predicate InsertsAfter(lines: seq<string>, fs: seq<Formula>, i: nat, k: nat)
    requires i < |lines|
  {
    k < |fs| && i + 1 < |lines| && IsBlank(lines[i + 1]) && fs[k].page == PageEstimate(lines, i)
  }

  function Trailing(fs: seq<Formula>, k: nat): seq<Item>
    requires k <= |fs|
    decreases |fs| - k
  {
    if k == |fs| then [] else [TrailingMarker(fs[k])] + Trailing(fs, k + 1)
  }

  /** The items from line `i` on, with `fs[k]` the next formula to place. */
  function PlaceFrom(lines: seq<string>, fs: seq<Formula>, i: nat, k: nat): seq<Item>
    requires i <= |lines| && k <= |fs|
    decreases |lines| - i
  {
    if i == |lines| then Trailing(fs, k)
    else if InsertsAfter(lines, fs, i, k) then
      [SourceLine(lines[i]), InlineMarker(fs[k], i)] + PlaceFrom(lines, fs, i + 1, k + 1)
    else
      [SourceLine(lines[i])] + PlaceFrom(lines, fs, i + 1, k)
  }

  lemma PlaceFromStep(lines: seq<string>, fs: seq<Formula>, i: nat, k: nat)
    requires i < |lines| && k <= |fs|
    ensures PlaceFrom(lines, fs, i, k) ==
      if InsertsAfter(lines, fs, i, k)
      then [SourceLine(lines[i])] + [InlineMarker(fs[k], i)] + PlaceFrom(lines, fs, i + 1, k + 1)
      else [SourceLine(lines[i])] + PlaceFrom(lines, fs, i + 1, k)
  {
  }

  /** One pass of the merge loop keeps "placed so far + still to place" fixed. */
  lemma LoopStep(lines: seq<string>, fs: seq<Formula>, i: nat, k0: nat, k: nat,
                 placed: seq<Item>, items: seq<Item>)
    requires i < |lines| && k0 <= |fs|
    requires InsertsAfter(lines, fs, i, k0) ==>
      k == k0 + 1 && items == [SourceLine(lines[i]), InlineMarker(fs[k0], i)]
    requires !InsertsAfter(lines, fs, i, k0) ==> k == k0 && items == [SourceLine(lines[i])]
    ensures k <= |fs|
    ensures (placed + items) + PlaceFrom(lines, fs, i + 1, k) == placed + PlaceFrom(lines, fs, i, k0)
  {
    var pre, k' := PlaceFromHead(lines, fs, i, k0);
    AppendAssoc(placed, items, PlaceFrom(lines, fs, i + 1, k));
  }

  lemma TrailingStep(fs: seq<Formula>, k: nat, placed: seq<Item>)
    requires k < |fs|
    ensures placed + Trailing(fs, k) == (placed + [TrailingMarker(fs[k])]) + Trailing(fs, k + 1)
  {
  }

  lemma RenderOne(a: seq<Item>, x: Item)
    ensures Render(a + [x]) == Render(a) + [RenderItem(x)]
  {
  }

  lemma RenderAppend(a: seq<Item>, b: seq<Item>)
    ensures Render(a + b) == Render(a) + Render(b)
  {
  }

  /** The whole merged output, as items. */
  function Placement(lines: seq<string>, fs: seq<Formula>): seq<Item> {
    PlaceFrom(lines, fs, 0, 0)
  }

  // ---------------------------------------------------------------------------
  // The merge itself.
  // ---------------------------------------------------------------------------

  /** `_integrate_content(basic_text, structured_text, formulas)`. Without
      formulas the richer text comes back unchanged; otherwise the lines of
      `structured_text` with the sorted formulas' markers placed among them. */
  method IntegrateContent(basicText: string, structuredText: string, formulas: seq<Formula>)
    returns (text: string)
    ensures |formulas| == 0 ==> text == (if |structuredText| > 0 then structuredText else basicText)
    ensures |formulas| > 0 ==>
      text == Join(Render(Placement(Split(structuredText, '\n'), SortByKey(formulas))), "\n")
  {
    if |formulas| == 0 {
      text := if |structuredText| > 0 then structuredText else basicText;
      return;
    }
    var sorted := SortByKey(formulas);
    var lines := Split(structuredText, '\n');
    var result: seq<string> := [];
    var formulaIdx: nat := 0;
    var currentPage: nat := 0;
    ghost var placed: seq<Item> := [];
    for i := 0 to |lines|
      invariant formulaIdx <= |sorted|
      invariant currentPage == PageEstimate(lines, i)
      invariant result == Render(placed)
      invariant placed + PlaceFrom(lines, sorted, i, formulaIdx) == Placement(lines, sorted)
    {
      var out, k, items := MergeLine(lines, sorted, i, formulaIdx, currentPage);
      LoopStep(lines, sorted, i, formulaIdx, k, placed, items);
      RenderAppend(placed, items);
      result := result + out;
      placed := placed + items;
      formulaIdx := k;
      currentPage := NextPage(lines, i, currentPage);
    }
    var out, items := FlushRemaining(sorted, formulaIdx);
    RenderAppend(placed, items);
    result := result + out;
    placed := placed + items;
    text := Join(result, "\n");
  }

  /** One pass of the line loop: line `i` is copied and, when the pending
      formula `fs[k]` belongs right after it, that formula's marker follows. */
  method MergeLine(lines: seq<string>, fs: seq<Formula>, i: nat, k: nat, currentPage: nat)
    returns (out: seq<string>, k': nat, ghost items: seq<Item>)
    requires i < |lines| && k <= |fs| && currentPage == PageEstimate(lines, i)
    ensures out == Render(items)
    ensures InsertsAfter(lines, fs, i, k) ==> out == [lines[i], Marker(fs[k].latex)]
    ensures !InsertsAfter(lines, fs, i, k) ==> out == [lines[i]]
    ensures InsertsAfter(lines, fs, i, k) ==>
      k' == k + 1 && items == [SourceLine(lines[i]), InlineMarker(fs[k], i)]
    ensures !InsertsAfter(lines, fs, i, k) ==> k' == k && items == [SourceLine(lines[i])]
  {
    var line := lines[i];
    out, k', items := [line], k, [SourceLine(line)];
    if k < |fs| {
      var f := fs[k];
      if i < |lines| - 1 {
        var nextLine := lines[i + 1];
        if IsBlank(nextLine) {
          if f.page == currentPage {
            out := out + [Marker(f.latex)];
            k' := k + 1;
            items := items + [InlineMarker(f, i)];
          }
        }
      }
    }
  }

  /** The page counter after line `i`: one more when line `i` is a blank line
      between two non-blank ones. */
  method NextPage(lines: seq<string>, i: nat, currentPage: nat) returns (page: nat)
    requires i < |lines| && currentPage == PageEstimate(lines, i)
    ensures page == PageEstimate(lines, i + 1)
    ensures page == currentPage || (page == currentPage + 1 && PageBreakAt(lines, i))
  {
    page := currentPage;
    var line := lines[i];
    if IsBlank(line) && i > 0 && i < |lines| - 1 {
      if !IsBlank(lines[i - 1]) && !IsBlank(lines[i + 1]) {
        page := currentPage + 1;
      }
    }
  }

  /** The closing loop: every formula from `fs[k]` on becomes a marker at the end. */
  method FlushRemaining(fs: seq<Formula>, k: nat) returns (out: seq<string>, ghost items: seq<Item>)
    requires k <= |fs|
    ensures items == Trailing(fs, k)
    ensures out == Render(items)
    ensures |out| == |fs| - k
    ensures forall j | 0 <= j < |out| :: out[j] == Marker(fs[k + j].latex)
  {
    out, items := [], [];
    var formulaIdx := k;
    while formulaIdx < |fs|
      invariant k <= formulaIdx <= |fs|
      invariant out == Render(items)
      invariant items + Trailing(fs, formulaIdx) == Trailing(fs, k)
      decreases |fs| - formulaIdx
    {
      RenderOne(items, TrailingMarker(fs[formulaIdx]));
      TrailingStep(fs, formulaIdx, items);
      out := out + [Marker(fs[formulaIdx].latex)];
      items := items + [TrailingMarker(fs[formulaIdx])];
      formulaIdx := formulaIdx + 1;
    }
    TrailingShape(fs, k);
  }

  // ---------------------------------------------------------------------------
  // What the placement promises.
  // ---------------------------------------------------------------------------

  lemma {:induction false} SourceLinesAppend(a: seq<Item>, b: seq<Item>)
    ensures SourceLines(a + b) == SourceLines(a) + SourceLines(b)
    decreases |a|
  {
    if a != [] {
      assert (a + b)[0] == a[0];
      assert (a + b)[1..] == a[1..] + b;
      SourceLinesAppend(a[1..], b);
    } else {
      assert a + b == b;
    }
  }

  lemma {:induction false} MarkersAppend(a: seq<Item>, b: seq<Item>)
    ensures Markers(a + b) == Markers(a) + Markers(b)
    decreases |a|
  {
    if a != [] {
      assert (a + b)[0] == a[0];
      assert (a + b)[1..] == a[1..] + b;
      MarkersAppend(a[1..], b);
    } else {
      assert a + b == b;
    }
  }

  lemma {:induction false} TrailingShape(fs: seq<Formula>, k: nat)
    requires k <= |fs|
    ensures SourceLines(Trailing(fs, k)) == []
    ensures Markers(Trailing(fs, k)) == fs[k..]
    ensures |Trailing(fs, k)| == |fs| - k
    ensures forall j | 0 <= j < |Trailing(fs, k)| :: Trailing(fs, k)[j] == TrailingMarker(fs[k + j])
    decreases |fs| - k
  {
    if k < |fs| {
      TrailingShape(fs, k + 1);
      var t := Trailing(fs, k);
      assert t[1..] == Trailing(fs, k + 1);
      DropCons(fs, k);
    }
  }

  /** Past the last line only the trailing markers remain. */
  lemma PlaceFromEnd(lines: seq<string>, fs: seq<Formula>, k: nat)
    requires k <= |fs|
    ensures PlaceFrom(lines, fs, |lines|, k) == Trailing(fs, k)
  {
  }

  /** The items of line `i`: the line itself and, maybe, the marker after it. */
  lemma PlaceFromHead(lines: seq<string>, fs: seq<Formula>, i: nat, k: nat)
    returns (pre: seq<Item>, k': nat)
    requires i < |lines| && k <= |fs|
    ensures k' == (if InsertsAfter(lines, fs, i, k) then k + 1 else k) && k' <= |fs|
    ensures PlaceFrom(lines, fs, i, k) == pre + PlaceFrom(lines, fs, i + 1, k')
    ensures pre == if InsertsAfter(lines, fs, i, k)
      then [SourceLine(lines[i]), InlineMarker(fs[k], i)] else [SourceLine(lines[i])]
    ensures SourceLines(pre) == [lines[i]]
    ensures Markers(pre) == fs[k..k']
  {
    PlaceFromStep(lines, fs, i, k);
    if InsertsAfter(lines, fs, i, k) {
      var head, marker := [SourceLine(lines[i])], [InlineMarker(fs[k], i)];
      k', pre := k + 1, head + marker;
      assert head[1..] == [] && marker[1..] == [];
      SourceLinesAppend(head, marker);
      MarkersAppend(head, marker);
      assert fs[k..k'] == [fs[k]];
    } else {
      k', pre := k, [SourceLine(lines[i])];
      assert pre[1..] == [];
    }
  }

  /** Deleting the marker lines gives back the input lines, in order. */
  lemma {:induction false} PlacementKeepsLines(lines: seq<string>, fs: seq<Formula>, i: nat, k: nat)
    requires i <= |lines| && k <= |fs|
    ensures SourceLines(PlaceFrom(lines, fs, i, k)) == lines[i..]
    decreases |lines| - i
  {
    if i == |lines| {
      PlaceFromEnd(lines, fs, k);
      TrailingShape(fs, k);
    } else {
      var pre, k' := PlaceFromHead(lines, fs, i, k);
      var rest := PlaceFrom(lines, fs, i + 1, k');
      PlacementKeepsLines(lines, fs, i + 1, k');
      SourceLinesJoin(lines, i, pre, rest);
    }
  }

  /** Line `i` followed by the lines after it are the lines from `i` on. */
  lemma SourceLinesJoin(lines: seq<string>, i: nat, pre: seq<Item>, rest: seq<Item>)
    requires i < |lines|
    requires SourceLines(pre) == [lines[i]] && SourceLines(rest) == lines[i + 1..]
    ensures SourceLines(pre + rest) == lines[i..]
  {
    SourceLinesAppend(pre, rest);
    DropCons(lines, i);
  }

  /** Every pending formula is emitted exactly once, in the order given. */
  lemma {:induction false} PlacementEmitsEachFormulaOnce(lines: seq<string>, fs: seq<Formula>, i: nat, k: nat)
    requires i <= |lines| && k <= |fs|
    ensures Markers(PlaceFrom(lines, fs, i, k)) == fs[k..]
    decreases |lines| - i
  {
    if i == |lines| {
      PlaceFromEnd(lines, fs, k);
      TrailingShape(fs, k);
    } else {
      var pre, k' := PlaceFromHead(lines, fs, i, k);
      var rest := PlaceFrom(lines, fs, i + 1, k');
      PlacementEmitsEachFormulaOnce(lines, fs, i + 1, k');
      MarkersJoin(fs, k, k', pre, rest);
    }
  }

  /** Markers for `fs[k..k']` followed by markers for `fs[k'..]` are markers for `fs[k..]`. */
  lemma MarkersJoin(fs: seq<Formula>, k: nat, k': nat, pre: seq<Item>, rest: seq<Item>)
    requires k <= k' <= |fs|
    requires Markers(pre) == fs[k..k'] && Markers(rest) == fs[k'..]
    ensures Markers(pre + rest) == fs[k..]
  {
    MarkersAppend(pre, rest);
    DropSplit(fs, k, k');
  }

  /** The merged output keeps every line of the structured text and carries
      one marker per formula, the markers ordered by (page, y0), ties in
      their input order. */
  lemma PlacementIsSortedMerge(lines: seq<string>, formulas: seq<Formula>)
    ensures SourceLines(Placement(lines, SortByKey(formulas))) == lines
    ensures SortedByKey(Markers(Placement(lines, SortByKey(formulas))))
    ensures multiset(Markers(Placement(lines, SortByKey(formulas)))) == multiset(formulas)
    ensures forall g :: WithKeyOf(Markers(Placement(lines, SortByKey(formulas))), g) == WithKeyOf(formulas, g)
  {
    var sorted := SortByKey(formulas);
    PlacementKeepsLines(lines, sorted, 0, 0);
    PlacementEmitsEachFormulaOnce(lines, sorted, 0, 0);
    assert sorted[0..] == sorted;
    assert lines[0..] == lines;
    forall g
      ensures WithKeyOf(Markers(Placement(lines, sorted)), g) == WithKeyOf(formulas, g)
    {
      SortIsStable(formulas, g);
    }
  }

  /** An inline marker sits right after the line it follows, that line is
      followed by a blank one, and the formula's page is the page estimated
      at that line. */
  predicate WellPlacedInline(lines: seq<string>, items: seq<Item>, j: nat)
    requires j < |items| && items[j].InlineMarker?
  {
    var a := items[j].after;
    a + 1 < |lines| && IsBlank(lines[a + 1])
    && items[j].formula.page == PageEstimate(lines, a)
    && 0 < j < |items| - 1
    && items[j - 1] == SourceLine(lines[a])
    && items[j + 1] == SourceLine(lines[a + 1])
  }

  /** Every inline marker of `items` is well placed. */
  predicate InlineWellPlaced(lines: seq<string>, items: seq<Item>) {
    forall j | 0 <= j < |items| && items[j].InlineMarker? :: WellPlacedInline(lines, items, j)
  }

  lemma InlineMarkersAreWellPlaced(lines: seq<string>, fs: seq<Formula>, i: nat, k: nat)
    requires i <= |lines| && k <= |fs|
    ensures InlineWellPlaced(lines, PlaceFrom(lines, fs, i, k))
  {
    var p := PlaceFrom(lines, fs, i, k);
    forall j | 0 <= j < |p| && p[j].InlineMarker?
      ensures WellPlacedInline(lines, p, j)
    {
      InlineMarkerIsWellPlaced(lines, fs, i, k, j);
    }
  }

  /** The inline marker at position `j` from line `i` on is well placed. */
  lemma {:induction false} InlineMarkerIsWellPlaced(lines: seq<string>, fs: seq<Formula>, i: nat, k: nat, j: nat)
    requires i <= |lines| && k <= |fs|
    requires j < |PlaceFrom(lines, fs, i, k)| && PlaceFrom(lines, fs, i, k)[j].InlineMarker?
    ensures WellPlacedInline(lines, PlaceFrom(lines, fs, i, k), j)
    decreases |lines| - i
  {
    if i == |lines| {
      PlaceFromEnd(lines, fs, k);
      TrailingShape(fs, k);
      assert false;
    } else {
      var pre, k' := PlaceFromHead(lines, fs, i, k);
      var rest := PlaceFrom(lines, fs, i + 1, k');
      HeadIsWellPlaced(lines, fs, i, k, pre, k');
      if j >= |pre| {
        assert (pre + rest)[j] == rest[j - |pre|];
        InlineMarkerIsWellPlaced(lines, fs, i + 1, k', j - |pre|);
        WellPlacedAfter(lines, pre, rest, j);
      } else {
        assert (pre + rest)[j] == pre[j];
      }
    }
  }

  /** The items of line `i` hold at most one marker, and it is well placed. */
  lemma HeadIsWellPlaced(lines: seq<string>, fs: seq<Formula>, i: nat, k: nat, pre: seq<Item>, k': nat)
    requires i < |lines| && k <= |fs|
    requires k' == (if InsertsAfter(lines, fs, i, k) then k + 1 else k) && k' <= |fs|
    requires pre == if InsertsAfter(lines, fs, i, k)
      then [SourceLine(lines[i]), InlineMarker(fs[k], i)] else [SourceLine(lines[i])]
    ensures |pre| == 1 || |pre| == 2
    ensures !pre[0].InlineMarker?
    ensures |pre| == 2 ==>
      pre[1].InlineMarker? && WellPlacedInline(lines, pre + PlaceFrom(lines, fs, i + 1, k'), 1)
  {
    if InsertsAfter(lines, fs, i, k) {
      var rest := PlaceFrom(lines, fs, i + 1, k');
      var _, _ := PlaceFromHead(lines, fs, i + 1, k');
      InsertedMarkerIsWellPlaced(lines, fs, i, k, rest);
    }
  }

  /** The marker placed after line `i` sits between that line and the next. */
  lemma InsertedMarkerIsWellPlaced(lines: seq<string>, fs: seq<Formula>, i: nat, k: nat, rest: seq<Item>)
    requires i < |lines| && InsertsAfter(lines, fs, i, k)
    requires rest != [] && rest[0] == SourceLine(lines[i + 1])
    ensures WellPlacedInline(lines, [SourceLine(lines[i]), InlineMarker(fs[k], i)] + rest, 1)
  {
    var p := [SourceLine(lines[i]), InlineMarker(fs[k], i)] + rest;
    assert p[0] == SourceLine(lines[i]);
    assert p[2] == rest[0];
  }

  /** A well-placed marker stays well placed behind a non-empty prefix. */
  lemma WellPlacedAfter(lines: seq<string>, pre: seq<Item>, rest: seq<Item>, j: nat)
    requires |pre| <= j < |pre| + |rest|
    requires rest[j - |pre|].InlineMarker? && WellPlacedInline(lines, rest, j - |pre|)
    ensures (pre + rest)[j] == rest[j - |pre|]
    ensures WellPlacedInline(lines, pre + rest, j)
  {
    var p, r := pre + rest, j - |pre|;
    assert p[j] == rest[r];
    assert p[j - 1] == rest[r - 1];
    assert p[j + 1] == rest[r + 1];
  }

  /** No item other than a trailing marker follows a trailing marker. */
  predicate TrailingAtEnd(items: seq<Item>) {
    forall j, j' | 0 <= j < j' < |items| && items[j].TrailingMarker? :: items[j'].TrailingMarker?
  }

  /** The markers flushed at the end come after everything else. */
  lemma {:induction false} TrailingMarkersComeLast(lines: seq<string>, fs: seq<Formula>, i: nat, k: nat)
    requires i <= |lines| && k <= |fs|
    ensures TrailingAtEnd(PlaceFrom(lines, fs, i, k))
    decreases |lines| - i
  {
    if i == |lines| {
      PlaceFromEnd(lines, fs, k);
      TrailingShape(fs, k);
    } else {
      var pre, k' := PlaceFromHead(lines, fs, i, k);
      var rest := PlaceFrom(lines, fs, i + 1, k');
      TrailingMarkersComeLast(lines, fs, i + 1, k');
      assert forall j | 0 <= j < |pre| :: !pre[j].TrailingMarker?;
      TrailingAtEndAfter(pre, rest);
    }
  }

  /** Putting items without trailing markers in front keeps them at the end. */
  lemma TrailingAtEndAfter(pre: seq<Item>, rest: seq<Item>)
    requires forall j | 0 <= j < |pre| :: !pre[j].TrailingMarker?
    requires TrailingAtEnd(rest)
    ensures TrailingAtEnd(pre + rest)
  {
    var p := pre + rest;
    forall j, j' | 0 <= j < j' < |p| && p[j].TrailingMarker?
      ensures p[j'].TrailingMarker?
    {
      assert j >= |pre|;
      assert p[j] == rest[j - |pre|];
      assert p[j'] == rest[j' - |pre|];
    }
  }

  /** The page estimate never goes back. */
  lemma {:induction false} PageEstimateMonotone(lines: seq<string>, i: nat, i': nat)
    requires i <= i' <= |lines|
    ensures PageEstimate(lines, i) <= PageEstimate(lines, i')
    decreases i' - i
  {
    if i < i' {
      PageEstimateMonotone(lines, i, i' - 1);
    }
  }

  /** The source lines alone, as items. */
  function LinesOnly(lines: seq<string>): (items: seq<Item>)
    ensures |items| == |lines|
    ensures forall j | 0 <= j < |lines| :: items[j] == SourceLine(lines[j])
  {
    seq(|lines|, j requires 0 <= j < |lines| => SourceLine(lines[j]))
  }

  lemma LinesOnlyCons(ls: seq<string>)
    requires |ls| > 0
    ensures LinesOnly(ls) == [SourceLine(ls[0])] + LinesOnly(ls[1..])
  {
  }

  /** A pending formula whose page the estimate has already passed is never
      placed, and it holds back every formula after it: from there on the
      rest of the lines are copied and all remaining formulas are flushed at
      the end. */
  lemma {:induction false} StuckFormulaBlocksTheRest(lines: seq<string>, fs: seq<Formula>, i: nat, k: nat)
    requires i <= |lines| && k < |fs|
    requires fs[k].page < PageEstimate(lines, i)
    ensures PlaceFrom(lines, fs, i, k) == LinesOnly(lines[i..]) + Trailing(fs, k)
    decreases |lines| - i
  {
    if i < |lines| {
      assert !InsertsAfter(lines, fs, i, k);
      var pre, k' := PlaceFromHead(lines, fs, i, k);
      PageEstimateMonotone(lines, i, i + 1);
      StuckFormulaBlocksTheRest(lines, fs, i + 1, k);
      LinesOnlyCons(lines[i..]);
      assert lines[i..][1..] == lines[i + 1..];
      AppendAssoc(pre, LinesOnly(lines[i + 1..]), Trailing(fs, k));
    } else {
      assert LinesOnly(lines[i..]) == [];
    }
  }

  /** Every item carries a line of the input or one of the formulas. */
  predicate FromInputs(lines: seq<string>, fs: seq<Formula>, items: seq<Item>) {
    forall j | 0 <= j < |items| ::
      if items[j].SourceLine? then items[j].text in lines else items[j].formula in fs
  }

  lemma {:induction false} ItemsComeFromInputs(lines: seq<string>, fs: seq<Formula>, i: nat, k: nat)
    requires i <= |lines| && k <= |fs|
    ensures FromInputs(lines, fs, PlaceFrom(lines, fs, i, k))
    decreases |lines| - i
  {
    if i == |lines| {
      PlaceFromEnd(lines, fs, k);
      TrailingShape(fs, k);
    } else {
      var pre, k' := PlaceFromHead(lines, fs, i, k);
      ItemsComeFromInputs(lines, fs, i + 1, k');
      FromInputsAppend(lines, fs, pre, PlaceFrom(lines, fs, i + 1, k'));
    }
  }

  lemma FromInputsAppend(lines: seq<string>, fs: seq<Formula>, pre: seq<Item>, rest: seq<Item>)
    requires FromInputs(lines, fs, pre) && FromInputs(lines, fs, rest)
    ensures FromInputs(lines, fs, pre + rest)
  {
    var p := pre + rest;
    forall j | |pre| <= j < |p|
      ensures p[j] == rest[j - |pre|]
    {
    }
  }

  lemma MarkerHasNoBreak(latex: string)
    requires '\n' !in latex
    ensures '\n' !in Marker(latex)
  {
  }

  /** Items built from lines and formulas free of line breaks render to lines
      free of line breaks. */
  lemma RenderedItemsHaveNoBreak(lines: seq<string>, fs: seq<Formula>)
    requires forall j | 0 <= j < |lines| :: '\n' !in lines[j]
    requires forall j | 0 <= j < |fs| :: '\n' !in fs[j].latex
    ensures |Placement(lines, fs)| >= 1 || |lines| == 0
    ensures forall j | 0 <= j < |Placement(lines, fs)| :: '\n' !in Render(Placement(lines, fs))[j]
  {
    var items := Placement(lines, fs);
    if |lines| > 0 {
      var pre, _ := PlaceFromHead(lines, fs, 0, 0);
    }
    ItemsComeFromInputs(lines, fs, 0, 0);
    forall j | 0 <= j < |items|
      ensures '\n' !in Render(items)[j]
    {
      if !items[j].SourceLine? {
        MarkerHasNoBreak(items[j].formula.latex);
      }
    }
  }

  /** When no formula's LaTeX holds a line break, the merged text splits back
      into exactly one line per item: the structured text's lines with one
      marker line per formula among them. */
  lemma IntegratedTextLines(structuredText: string, formulas: seq<Formula>)
    requires forall j | 0 <= j < |formulas| :: '\n' !in formulas[j].latex
    ensures var items := Placement(Split(structuredText, '\n'), SortByKey(formulas));
      Split(Join(Render(items), "\n"), '\n') == Render(items)
  {
    var lines := Split(structuredText, '\n');
    var sorted := SortByKey(formulas);
    forall j | 0 <= j < |sorted|
      ensures '\n' !in sorted[j].latex
    {
      assert sorted[j] in multiset(formulas);
    }
    RenderedItemsHaveNoBreak(lines, sorted);
    SplitJoin(Render(Placement(lines, sorted)), '\n');
  }
}
