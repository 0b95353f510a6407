/** stat.py: the length-distribution summary and the counting pass over the
    saved JSON records. */
module Stat {
  import opened Common

  // ---------------------------------------------------------------------------
  // `sorted(lengths)`
  // ---------------------------------------------------------------------------

  predicate Sorted(xs: seq<nat>) {
    forall i, j | 0 <= i < j < |xs| :: xs[i] <= xs[j]
  }

  function Insert(x: nat, xs: seq<nat>): (r: seq<nat>)
    requires Sorted(xs)
    ensures Sorted(r) && multiset(r) == multiset(xs) + multiset{x} && |r| == |xs| + 1
  {
    if xs == [] || x <= xs[0] then [x] + xs
    else
      var rest := Insert(x, xs[1..]);
      assert xs == [xs[0]] + xs[1..];
      LowerBoundKept(xs[0], x, xs[1..], rest);
      var r := [xs[0]] + rest;
      SortedCons(xs[0], rest);
      assert multiset(r) == multiset{xs[0]} + multiset(rest);
      r
  }

  /** A lower bound of `x` and of every element of `xs` bounds a permutation of `xs` plus `x`. */
  lemma LowerBoundKept(h: nat, x: nat, xs: seq<nat>, r: seq<nat>)
    requires h <= x && forall j | 0 <= j < |xs| :: h <= xs[j]
    requires multiset(r) == multiset(xs) + multiset{x}
    ensures forall j | 0 <= j < |r| :: h <= r[j]
  {
    forall j | 0 <= j < |r|
      ensures h <= r[j]
    {
      assert r[j] in multiset(r);
      if r[j] != x {
        assert r[j] in multiset(xs);
      }
    }
  }

  lemma SortedCons(h: nat, rest: seq<nat>)
    requires Sorted(rest) && forall j | 0 <= j < |rest| :: h <= rest[j]
    ensures Sorted([h] + rest)
  {
    var r := [h] + rest;
    forall i, j | 0 <= i < j < |r|
      ensures r[i] <= r[j]
    {
      assert r[j] == rest[j - 1];
      if i > 0 {
        assert r[i] == rest[i - 1];
      }
    }
  }

  /** `sorted(xs)`: ascending and a permutation of `xs`. */
  function SortAscending(xs: seq<nat>): (r: seq<nat>)
    ensures Sorted(r) && multiset(r) == multiset(xs) && |r| == |xs|
  {
    if xs == [] then []
    else
      assert xs == [xs[0]] + xs[1..];
      Insert(xs[0], SortAscending(xs[1..]))
  }

  function Sum(xs: seq<nat>): nat {
    if xs == [] then 0 else Sum(xs[..|xs| - 1]) + xs[|xs| - 1]
  }

  // ---------------------------------------------------------------------------
  // The histogram bins.
  // ---------------------------------------------------------------------------

  /** `bins[1:]` without its last entry, `float('inf')`, which every length is below. */
  const Thresholds: seq<nat> := [50, 100, 200, 500, 1000, 2000]
  const BinLabels: seq<string> := ["0-50", "51-100", "101-200", "201-500", "501-1000", "1001-2000", "2000+"]
  const BinCount: nat := 7

  /** `length <= bins[1:][i]` */
  predicate WithinThreshold(length: nat, i: nat)
    requires i < BinCount
  {
    i == BinCount - 1 || length <= Thresholds[i]
  }

  /** The bin of `length`: the first threshold it does not exceed. */
  function Bin(length: nat): (b: nat)
    ensures b < BinCount && WithinThreshold(length, b)
    ensures forall i | 0 <= i < b :: !WithinThreshold(length, i)
  {
    if length <= 50 then 0 else if length <= 100 then 1 else if length <= 200 then 2
    else if length <= 500 then 3 else if length <= 1000 then 4 else if length <= 2000 then 5
    else 6
  }

  /** The bins split the lengths into the ranges their labels name: bin `b`
      holds exactly the lengths from `Lower(b)` to its threshold. */
  function Lower(b: nat): nat
    requires b < BinCount
  {
    if b == 0 then 0 else Thresholds[b - 1] + 1
  }

  lemma BinsPartitionLengths(length: nat, b: nat)
    requires b < BinCount
    ensures Bin(length) == b <==> Lower(b) <= length && (b == BinCount - 1 || length <= Thresholds[b])
  {
  }

  /** How many of `xs` fall into bin `b`. */
  function CountInBin(xs: seq<nat>, b: nat): (n: nat)
    ensures n <= |xs|
  {
    if xs == [] then 0
    else CountInBin(xs[..|xs| - 1], b) + (if Bin(xs[|xs| - 1]) == b then 1 else 0)
  }

  function SumBins(xs: seq<nat>, upTo: nat): nat
    requires upTo <= BinCount
  {
    if upTo == 0 then 0 else SumBins(xs, upTo - 1) + CountInBin(xs, upTo - 1)
  }

  /** Every length is counted in exactly one bin: the counts add up to `|xs|`. */
  lemma {:induction false} BinCountsSumToLength(xs: seq<nat>)
    ensures SumBins(xs, BinCount) == |xs|
  {
    if xs != [] {
      var init := xs[..|xs| - 1];
      BinCountsSumToLength(init);
      SumBinsStep(xs, BinCount);
      assert Bin(xs[|xs| - 1]) < BinCount;
    } else {
      SumBinsOfNothing(BinCount);
    }
  }

  lemma {:induction false} SumBinsOfNothing(upTo: nat)
    requires upTo <= BinCount
    ensures SumBins([], upTo) == 0
  {
    if upTo > 0 {
      SumBinsOfNothing(upTo - 1);
    }
  }

  lemma {:induction false} SumBinsStep(xs: seq<nat>, upTo: nat)
    requires xs != [] && upTo <= BinCount
    ensures SumBins(xs, upTo) == SumBins(xs[..|xs| - 1], upTo) + (if Bin(xs[|xs| - 1]) < upTo then 1 else 0)
  {
    if upTo > 0 {
      SumBinsStep(xs, upTo - 1);
    }
  }

  /** The label of the bin `length` falls into. */
  function LabelOf(length: nat): string {
    BinLabels[Bin(length)]
  }

  lemma LabelsAreDistinct()
    ensures forall a, b | 0 <= a < b < BinCount :: BinLabels[a] != BinLabels[b]
  {
    assert forall a | 0 <= a < BinCount :: BinLabels[a][|BinLabels[a]| - 1] == ['0', '0', '0', '0', '0', '0', '+'][a];
    assert forall a | 0 <= a < BinCount :: |BinLabels[a]| == [4, 6, 7, 7, 8, 9, 5][a];
    assert BinLabels[0][0] != BinLabels[5][0];
    assert BinLabels[2][0] != BinLabels[3][0];
  }

  /** `distribution[label] += 1` for each length in turn, starting from an
      empty `defaultdict(int)`. */
  function Histogram(xs: seq<nat>): map<string, nat> {
    if xs == [] then map[]
    else
      var h := Histogram(xs[..|xs| - 1]);
      var l := LabelOf(xs[|xs| - 1]);
      h[l := (if l in h then h[l] else 0) + 1]
  }

  /** The histogram holds, for every label, the number of lengths in that
      bin, and only the labels of non-empty bins. */
  lemma {:induction false} HistogramCounts(xs: seq<nat>)
    ensures forall b | 0 <= b < BinCount ::
      (BinLabels[b] in Histogram(xs) <==> CountInBin(xs, b) > 0)
      && (BinLabels[b] in Histogram(xs) ==> Histogram(xs)[BinLabels[b]] == CountInBin(xs, b))
    ensures forall l | l in Histogram(xs) :: l in BinLabels
  {
    if xs != [] {
      HistogramCounts(xs[..|xs| - 1]);
      LabelsAreDistinct();
    }
  }

  // ---------------------------------------------------------------------------
  // `calculate_distribution`
  // ---------------------------------------------------------------------------

  datatype Stats = Stats(
    count: nat, min: nat, max: nat, mean: real, median: real, p25: nat, p75: nat,
    distribution: map<string, nat>)

  /** `lengths_sorted[n // 2]` for odd `n`, else the mean of the two middle
      entries. */
  function Median(sorted: seq<nat>): real
    requires |sorted| > 0
  {
    var n := |sorted|;
    if n % 2 == 1 then sorted[n / 2] as real else (sorted[n / 2 - 1] + sorted[n / 2]) as real / 2.0
  }

  /** `lengths_sorted[n // 4] if n >= 4 else lengths_sorted[0]` */
  function LowerQuartile(sorted: seq<nat>): nat
    requires |sorted| > 0
  {
    var n := |sorted|;
    if n >= 4 then sorted[n / 4] else sorted[0]
  }

  /** `lengths_sorted[3 * n // 4] if n >= 4 else lengths_sorted[-1]` */
  function UpperQuartile(sorted: seq<nat>): nat
    requires |sorted| > 0
  {
    var n := |sorted|;
    if n >= 4 then sorted[3 * n / 4] else sorted[n - 1]
  }

  /** The summary of a non-empty list of `n` lengths. */
  function Summary(lengths: seq<nat>): (s: Stats)
    requires |lengths| > 0
  {
    var sorted := SortAscending(lengths);
    var n := |lengths|;
    Stats(
      n, sorted[0], sorted[n - 1], Sum(lengths) as real / n as real,
      Median(sorted), LowerQuartile(sorted), UpperQuartile(sorted),
      if sorted[n - 1] > sorted[0] then Histogram(lengths) else map[])
  }

  /** `calculate_distribution(lengths)`. */
  method CalculateDistribution(lengths: seq<nat>) returns (r: Option<Stats>)
    ensures |lengths| == 0 <==> r == None
    ensures r.Some? ==> r.value == Summary(lengths)
  {
    if |lengths| == 0 {
      return None;
    }
    var sorted := SortAscending(lengths);
    var n := |lengths|;
    var stats := Stats(
      n, sorted[0], sorted[n - 1], Sum(lengths) as real / n as real,
      Median(sorted), LowerQuartile(sorted), UpperQuartile(sorted), map[]);
    if stats.max > stats.min {
      var distribution := CountIntoBins(lengths);
      stats := stats.(distribution := distribution);
    }
    return Some(stats);
  }

  /** The binning loop of `calculate_distribution`: `distribution[label] += 1`
      for each length in turn. */
  method CountIntoBins(lengths: seq<nat>) returns (distribution: map<string, nat>)
    ensures distribution == Histogram(lengths)
  {
    distribution := map[];
    for t := 0 to |lengths|
      invariant distribution == Histogram(lengths[..t])
    {
      assert lengths[..t + 1][..t] == lengths[..t];
      var i := BinIndex(lengths[t]);
      var binLabel := BinLabels[i];
      distribution := distribution[binLabel := (if binLabel in distribution then distribution[binLabel] else 0) + 1];
    }
    assert lengths[..|lengths|] == lengths;
  }

  /** `for i, threshold in enumerate(bins[1:], 0): if length <= threshold: … break` */
  method BinIndex(length: nat) returns (i: nat)
    ensures i == Bin(length)
  {
    i := 0;
    while i < BinCount
      invariant i <= BinCount
      invariant forall j | 0 <= j < i :: !WithinThreshold(length, j)
    {
      if WithinThreshold(length, i) {
        break;
      }
      i := i + 1;
    }
    assert i == Bin(length);
  }

  /** `min` and `max` are elements of the list and bound all the others. */
  lemma MinMaxBoundAll(lengths: seq<nat>)
    requires |lengths| > 0
    ensures var s := Summary(lengths);
      s.count == |lengths|
      && s.min in lengths && s.max in lengths
      && (forall i | 0 <= i < |lengths| :: s.min <= lengths[i] <= s.max)
  {
    var sorted := SortAscending(lengths);
    var n := |lengths|;
    assert sorted[0] in multiset(lengths) && sorted[n - 1] in multiset(lengths);
    forall i | 0 <= i < n
      ensures sorted[0] <= lengths[i] <= sorted[n - 1]
    {
      assert lengths[i] in multiset(sorted);
      var k :| 0 <= k < n && sorted[k] == lengths[i];
      assert sorted[0] <= sorted[k] <= sorted[n - 1];
    }
  }

  /** min <= p25 <= median <= p75 <= max. */
  lemma QuantilesAreOrdered(lengths: seq<nat>)
    requires |lengths| > 0
    ensures var s := Summary(lengths);
      s.min <= s.p25 && s.p25 as real <= s.median <= s.p75 as real && s.p75 <= s.max
  {
    QuartilesOfSorted(SortAscending(lengths));
  }

  lemma QuartilesOfSorted(sorted: seq<nat>)
    requires |sorted| > 0 && Sorted(sorted)
    ensures sorted[0] <= LowerQuartile(sorted)
    ensures LowerQuartile(sorted) as real <= Median(sorted) <= UpperQuartile(sorted) as real
    ensures UpperQuartile(sorted) <= sorted[|sorted| - 1]
  {
    var n := |sorted|;
    var lo := if n >= 4 then n / 4 else 0;
    var hi := if n >= 4 then 3 * n / 4 else n - 1;
    var m1 := if n % 2 == 1 then n / 2 else n / 2 - 1;
    var m2 := n / 2;
    assert 0 <= lo <= m1 <= m2 <= hi < n;
    assert LowerQuartile(sorted) == sorted[lo] && UpperQuartile(sorted) == sorted[hi];
    assert Median(sorted) == (sorted[m1] + sorted[m2]) as real / 2.0;
    assert sorted[0] <= sorted[lo] <= sorted[m1] <= sorted[m2] <= sorted[hi] <= sorted[n - 1];
  }

  /** With all lengths equal the distribution is empty; otherwise its counts
      add up to the number of lengths. */
  lemma DistributionCoversAll(lengths: seq<nat>)
    requires |lengths| > 0
    ensures var s := Summary(lengths);
      (s.max == s.min ==> s.distribution == map[])
      && (s.max > s.min ==> (SumBins(lengths, BinCount) == |lengths|
          && forall b | 0 <= b < BinCount ::
            (BinLabels[b] in s.distribution <==> CountInBin(lengths, b) > 0)
            && (BinLabels[b] in s.distribution ==> s.distribution[BinLabels[b]] == CountInBin(lengths, b))))
  {
    BinCountsSumToLength(lengths);
    HistogramCounts(lengths);
  }

  lemma MulStep(n: nat, c: nat)
    ensures (n + 1) * c == n * c + c
  {
  }

  lemma {:induction false} SumBounds(xs: seq<nat>, lo: nat, hi: nat)
    requires forall i | 0 <= i < |xs| :: lo <= xs[i] <= hi
    ensures |xs| * lo <= Sum(xs) <= |xs| * hi
  {
    if xs != [] {
      var init := xs[..|xs| - 1];
      SumBounds(init, lo, hi);
      assert Sum(xs) == Sum(init) + xs[|xs| - 1];
      MulStep(|init|, lo);
      MulStep(|init|, hi);
    }
  }

  lemma MeanBounds(lo: nat, hi: nat, sum: nat, n: nat)
    requires n > 0 && n * lo <= sum <= n * hi
    ensures lo as real <= sum as real / n as real <= hi as real
  {
    assert (n * lo) as real == n as real * lo as real;
    assert (n * hi) as real == n as real * hi as real;
  }

  /** The mean lies between the minimum and the maximum. */
  lemma MeanIsBetweenMinAndMax(lengths: seq<nat>)
    requires |lengths| > 0
    ensures Summary(lengths).min as real <= Summary(lengths).mean <= Summary(lengths).max as real
  {
    MinMaxBoundAll(lengths);
    var s := Summary(lengths);
    SumBounds(lengths, s.min, s.max);
    MeanBounds(s.min, s.max, Sum(lengths), |lengths|);
  }

  // ---------------------------------------------------------------------------
  // `collect_statistics`, once the JSON files are read.
  // ---------------------------------------------------------------------------

  /** A `qa_pairs` element: which of its two keys are present. */
  datatype PairObject = PairObject(question: Option<string>, answer: Option<string>)

  /** One JSON file: unreadable, or an object with an optional `source` and
      a `qa_pairs` that is a list (`Some`) or absent or not a list (`None`). */
  datatype JsonFile = Unreadable | Parsed(source: Option<string>, qaPairs: Option<seq<PairObject>>)

  datatype Collection = Collection(
    documents: set<string>, questionLengths: seq<nat>, answerLengths: seq<nat>,
    totalQaPairs: nat, totalFiles: nat)

  function PairsOf(f: JsonFile): seq<PairObject> {
    if f.Parsed? && f.qaPairs.Some? then f.qaPairs.value else []
  }

  function QuestionLengthsIn(pairs: seq<PairObject>): seq<nat> {
    if pairs == [] then []
    else
      var p := pairs[|pairs| - 1];
      QuestionLengthsIn(pairs[..|pairs| - 1]) + (if p.question.Some? then [|p.question.value|] else [])
  }

  function AnswerLengthsIn(pairs: seq<PairObject>): seq<nat> {
    if pairs == [] then []
    else
      var p := pairs[|pairs| - 1];
      AnswerLengthsIn(pairs[..|pairs| - 1]) + (if p.answer.Some? then [|p.answer.value|] else [])
  }

  function Documents(files: seq<JsonFile>): set<string> {
    if files == [] then {}
    else
      var f := files[|files| - 1];
      Documents(files[..|files| - 1]) + (if f.Parsed? && f.source.Some? then {f.source.value} else {})
  }

  function QuestionLengths(files: seq<JsonFile>): seq<nat> {
    if files == [] then [] else QuestionLengths(files[..|files| - 1]) + QuestionLengthsIn(PairsOf(files[|files| - 1]))
  }

  function AnswerLengths(files: seq<JsonFile>): seq<nat> {
    if files == [] then [] else AnswerLengths(files[..|files| - 1]) + AnswerLengthsIn(PairsOf(files[|files| - 1]))
  }

  function TotalPairs(files: seq<JsonFile>): nat {
    if files == [] then 0 else TotalPairs(files[..|files| - 1]) + |PairsOf(files[|files| - 1])|
  }

  /** `collect_statistics(output_dir)` over the files the directory holds. */
  method CollectStatistics(files: seq<JsonFile>) returns (r: Option<Collection>)
    ensures |files| == 0 <==> r == None
    ensures r.Some? ==> r.value == Collection(
      Documents(files), QuestionLengths(files), AnswerLengths(files), TotalPairs(files), |files|)
  {
    if |files| == 0 {
      return None;
    }
    var documents: set<string> := {};
    var questionLengths: seq<nat> := [];
    var answerLengths: seq<nat> := [];
    var totalQaPairs := 0;
    for t := 0 to |files|
      invariant documents == Documents(files[..t])
      invariant questionLengths == QuestionLengths(files[..t])
      invariant answerLengths == AnswerLengths(files[..t])
      invariant totalQaPairs == TotalPairs(files[..t])
    {
      assert files[..t + 1][..t] == files[..t];
      match files[t]
      case Unreadable =>
      case Parsed(source, qaPairs) =>
        if source.Some? {
          documents := documents + {source.value};
        }
        if qaPairs.Some? {
          var questions, answers := ScanPairs(qaPairs.value);
          questionLengths := questionLengths + questions;
          answerLengths := answerLengths + answers;
          totalQaPairs := totalQaPairs + |qaPairs.value|;
        }
    }
    assert files[..|files|] == files;
    return Some(Collection(documents, questionLengths, answerLengths, totalQaPairs, |files|));
  }

  /** The inner loop of `collect_statistics` over one file's `qa_pairs`: the
      lengths of the questions and of the answers present, in order. */
  method ScanPairs(pairs: seq<PairObject>) returns (questions: seq<nat>, answers: seq<nat>)
    ensures questions == QuestionLengthsIn(pairs)
    ensures answers == AnswerLengthsIn(pairs)
  {
    questions, answers := [], [];
    for u := 0 to |pairs|
      invariant questions == QuestionLengthsIn(pairs[..u])
      invariant answers == AnswerLengthsIn(pairs[..u])
    {
      assert pairs[..u + 1][..u] == pairs[..u];
      var qaPair := pairs[u];
      if qaPair.question.Some? {
        questions := questions + [|qaPair.question.value|];
      }
      if qaPair.answer.Some? {
        answers := answers + [|qaPair.answer.value|];
      }
    }
    assert pairs[..|pairs|] == pairs;
  }

  lemma {:induction false} LengthsWithinPairs(pairs: seq<PairObject>)
    ensures |QuestionLengthsIn(pairs)| <= |pairs| && |AnswerLengthsIn(pairs)| <= |pairs|
  {
    if pairs != [] {
      LengthsWithinPairs(pairs[..|pairs| - 1]);
    }
  }

  /** There are never more question (or answer) lengths than pairs, nor more
      documents than readable files. */
  lemma {:induction false} CollectionBounds(files: seq<JsonFile>)
    ensures |QuestionLengths(files)| <= TotalPairs(files)
    ensures |AnswerLengths(files)| <= TotalPairs(files)
    ensures |Documents(files)| <= |files|
  {
    if files != [] {
      CollectionBounds(files[..|files| - 1]);
      LengthsWithinPairs(PairsOf(files[|files| - 1]));
    }
  }
}
