/** The bookkeeping of src/qa_generator.py: how one document's extraction,
    question call and answer calls turn into an outcome, and how the outcomes
    of all documents are split into results and failed files.

    The model client and the PDF extraction are not modelled: what they
    return (or that they raised) is an input, and the order in which the
    worker threads finish is an input too. */
module QaGenerator {
  import opened Common
  import opened Strings

  /** What a call into code outside the model did: returned a value or raised. */
  datatype Call<T> = Returned(value: T) | Raised

  type Metadata = map<string, string>

  /** `(content, filename, metadata)` as `extract_text_from_pdf` returns it. */
  datatype Extraction = Extraction(content: string, filename: string, metadata: Metadata)

  /** Everything the world outside the model supplies for one PDF. A `None`
      from the client is the empty list or the empty string: the code only
      tests them for truth. */
  datatype DocumentInputs = DocumentInputs(
    path: string,
    extraction: Call<Extraction>,
    questions: Call<seq<string>>,
    answers: seq<Call<string>>,  // the answer call for `questions[j]` is `answers[j]`
    completion: seq<nat>)        // the question indices in the order their futures complete

  /** One call to the model client, in the order they are submitted. */
  datatype ClientCall = QuestionCall(content: string, count: nat) | AnswerCall(question: string)

  /** The 5-tuple `(qa_pairs, filename, content, metadata, success)`. */
  datatype PdfOutcome = PdfOutcome(
    qaPairs: seq<QAPair>, filename: string, content: string, metadata: Metadata, success: bool)

  /** `order` lists each of `0 .. n-1` exactly once, as `as_completed` yields
      each submitted future exactly once. */
  predicate IsCompletionOrder(order: seq<nat>, n: nat) {
    |order| == n
    && (forall t | 0 <= t < |order| :: order[t] < n)
    && (forall t, u | 0 <= t < u < |order| :: order[t] != order[u])
    && (forall j | 0 <= j < n :: j in order)
  }

  /** The inputs describe one run: one answer per question and a completion
      order over them. */
  predicate WellFormed(d: DocumentInputs) {
    d.questions.Returned? ==>
      |d.answers| == |d.questions.value| && IsCompletionOrder(d.completion, |d.questions.value|)
  }

  // ---------------------------------------------------------------------------
  // Collecting the answers (the `as_completed` loop of `process_pdf`).
  // ---------------------------------------------------------------------------

  /** `if answer:` — a returned, non-empty answer. */
  predicate Answered(a: Call<string>) {
    a.Returned? && |a.value| > 0
  }

  predicate ValidOrder(questions: seq<string>, answers: seq<Call<string>>, order: seq<nat>) {
    |answers| == |questions| && forall t | 0 <= t < |order| :: order[t] < |questions|
  }

  /** The pairs collected after the futures in `order` have completed. */
  function Collected(questions: seq<string>, answers: seq<Call<string>>, order: seq<nat>): seq<QAPair>
    requires ValidOrder(questions, answers, order)
  {
    if order == [] then []
    else
      var j := order[|order| - 1];
      Collected(questions, answers, order[..|order| - 1])
        + (if Answered(answers[j]) then [QAPair(questions[j], answers[j].value)] else [])
  }

  /** The failures (empty answers and exceptions) counted over `order`. */
  function Failures(answers: seq<Call<string>>, order: seq<nat>): nat
    requires forall t | 0 <= t < |order| :: order[t] < |answers|
  {
    if order == [] then 0
    else
      Failures(answers, order[..|order| - 1]) + (if Answered(answers[order[|order| - 1]]) then 0 else 1)
  }

  /** The collection loop: each completed future either adds its pair or
      counts one failure. */
  method CollectAnswers(questions: seq<string>, answers: seq<Call<string>>, order: seq<nat>)
    returns (qaPairs: seq<QAPair>, failedCount: nat)
    requires ValidOrder(questions, answers, order)
    ensures qaPairs == Collected(questions, answers, order)
    ensures failedCount == Failures(answers, order)
    ensures |qaPairs| + failedCount == |order|
  {
    qaPairs := [];
    failedCount := 0;
    for t := 0 to |order|
      invariant qaPairs == Collected(questions, answers, order[..t])
      invariant failedCount == Failures(answers, order[..t])
      invariant |qaPairs| + failedCount == t
    {
      assert order[..t + 1][..t] == order[..t];
      var j := order[t];
      var question := questions[j];
      match answers[j]
      case Returned(answer) =>
        if |answer| > 0 {
          qaPairs := qaPairs + [QAPair(question, answer)];
        } else {
          failedCount := failedCount + 1;
        }
      case Raised =>
        failedCount := failedCount + 1;
    }
    assert order[..|order|] == order;
  }

  /** A collected pair is some question with its own non-empty answer. */
  lemma {:induction false} CollectedPairsAreAnswered(questions: seq<string>, answers: seq<Call<string>>, order: seq<nat>)
    requires ValidOrder(questions, answers, order)
    ensures forall p | p in Collected(questions, answers, order) ::
      exists t | 0 <= t < |order| ::
        Answered(answers[order[t]]) && p == QAPair(questions[order[t]], answers[order[t]].value)
    ensures forall t | 0 <= t < |order| && Answered(answers[order[t]]) ::
      QAPair(questions[order[t]], answers[order[t]].value) in Collected(questions, answers, order)
  {
    if order != [] {
      var init := order[..|order| - 1];
      CollectedPairsAreAnswered(questions, answers, init);
      forall p | p in Collected(questions, answers, order)
        ensures exists t | 0 <= t < |order| ::
          Answered(answers[order[t]]) && p == QAPair(questions[order[t]], answers[order[t]].value)
      {
        if p in Collected(questions, answers, init) {
          var t :| 0 <= t < |init| &&
            Answered(answers[init[t]]) && p == QAPair(questions[init[t]], answers[init[t]].value);
          assert order[t] == init[t];
        }
      }
      forall t | 0 <= t < |order| && Answered(answers[order[t]])
        ensures QAPair(questions[order[t]], answers[order[t]].value) in Collected(questions, answers, order)
      {
        if t < |init| {
          assert order[t] == init[t];
        }
      }
    }
  }

  /** The questions whose answer call returned a non-empty answer. */
  function AnsweredIndices(answers: seq<Call<string>>): set<nat> {
    set j: nat | j < |answers| && Answered(answers[j])
  }

  /** The questions among `order` whose answer is kept. */
  function AnsweredAmong(answers: seq<Call<string>>, order: seq<nat>): set<nat>
    requires forall t | 0 <= t < |order| :: order[t] < |answers|
  {
    if order == [] then {}
    else
      var j := order[|order| - 1];
      AnsweredAmong(answers, order[..|order| - 1]) + (if Answered(answers[j]) then {j} else {})
  }

  lemma {:induction false} AnsweredAmongMembers(answers: seq<Call<string>>, order: seq<nat>)
    requires forall t | 0 <= t < |order| :: order[t] < |answers|
    ensures forall j: nat :: j in AnsweredAmong(answers, order) <==>
      j < |answers| && j in order && Answered(answers[j])
  {
    if order != [] {
      var init := order[..|order| - 1];
      AnsweredAmongMembers(answers, init);
      assert order == init + [order[|order| - 1]];
    }
  }

  /** With no question completing twice, one pair is collected per kept
      answer. */
  lemma {:induction false} CollectedCount(questions: seq<string>, answers: seq<Call<string>>, order: seq<nat>)
    requires ValidOrder(questions, answers, order)
    requires forall t, u | 0 <= t < u < |order| :: order[t] != order[u]
    ensures |Collected(questions, answers, order)| == |AnsweredAmong(answers, order)|
  {
    if order != [] {
      var init := order[..|order| - 1];
      var last := order[|order| - 1];
      CollectedCount(questions, answers, init);
      AnsweredAmongMembers(answers, init);
      assert last !in init by {
        forall t | 0 <= t < |init|
          ensures init[t] != last
        {
          assert init[t] == order[t];
        }
      }
    }
  }

  /** However the futures complete, as many pairs are collected as there are
      questions with a non-empty answer, the rest are failures, and the same
      pairs are collected. */
  lemma CollectionIsOrderFree(questions: seq<string>, answers: seq<Call<string>>, order: seq<nat>)
    requires |answers| == |questions| && IsCompletionOrder(order, |questions|)
    ensures |Collected(questions, answers, order)| == |AnsweredIndices(answers)|
    ensures Failures(answers, order) == |questions| - |AnsweredIndices(answers)|
    ensures forall p :: p in Collected(questions, answers, order) <==>
      exists j | 0 <= j < |questions| :: Answered(answers[j]) && p == QAPair(questions[j], answers[j].value)
  {
    CollectedCountIsOrderFree(questions, answers, order);
    CollectedPairsAreOrderFree(questions, answers, order);
  }

  lemma CollectedCountIsOrderFree(questions: seq<string>, answers: seq<Call<string>>, order: seq<nat>)
    requires |answers| == |questions| && IsCompletionOrder(order, |questions|)
    ensures |Collected(questions, answers, order)| == |AnsweredIndices(answers)|
    ensures Failures(answers, order) == |questions| - |AnsweredIndices(answers)|
  {
    CollectedCount(questions, answers, order);
    AnsweredAmongMembers(answers, order);
    assert AnsweredAmong(answers, order) == AnsweredIndices(answers);
    var qa, failed := CollectAnswersTotal(questions, answers, order);
  }

  lemma CollectedPairsAreOrderFree(questions: seq<string>, answers: seq<Call<string>>, order: seq<nat>)
    requires |answers| == |questions| && IsCompletionOrder(order, |questions|)
    ensures forall p :: p in Collected(questions, answers, order) <==>
      exists j | 0 <= j < |questions| :: Answered(answers[j]) && p == QAPair(questions[j], answers[j].value)
  {
    CollectedPairsAreAnswered(questions, answers, order);
    forall p
      ensures p in Collected(questions, answers, order) <==>
        exists j | 0 <= j < |questions| :: Answered(answers[j]) && p == QAPair(questions[j], answers[j].value)
    {
      if exists j | 0 <= j < |questions| :: Answered(answers[j]) && p == QAPair(questions[j], answers[j].value) {
        var j :| 0 <= j < |questions| && Answered(answers[j]) && p == QAPair(questions[j], answers[j].value);
        assert j in order;
        var t :| 0 <= t < |order| && order[t] == j;
      }
    }
  }

  /** The count identity of `CollectAnswers`, in lemma form. */
  lemma {:induction false} CollectAnswersTotal(questions: seq<string>, answers: seq<Call<string>>, order: seq<nat>)
    returns (qa: nat, failed: nat)
    requires ValidOrder(questions, answers, order)
    ensures qa == |Collected(questions, answers, order)| && failed == Failures(answers, order)
    ensures qa + failed == |order|
  {
    if order == [] {
      qa, failed := 0, 0;
    } else {
      qa, failed := CollectAnswersTotal(questions, answers, order[..|order| - 1]);
      if Answered(answers[order[|order| - 1]]) {
        qa := qa + 1;
      } else {
        failed := failed + 1;
      }
    }
  }

  // ---------------------------------------------------------------------------
  // One document (`process_pdf`).
  // ---------------------------------------------------------------------------

  /** The outcome of `process_pdf`, with its three early exits and the outer
      `except`. An exception from the question call reaches the outer
      handler after `filename` was rebound to the extracted name. */
  function Outcome(d: DocumentInputs): (r: PdfOutcome)
    requires WellFormed(d)
  {
    match d.extraction
    case Raised => PdfOutcome([], BaseName(d.path), "", map[], false)
    case Returned(e) =>
      if |e.content| == 0 then PdfOutcome([], e.filename, "", map[], false)
      else match d.questions
        case Raised => PdfOutcome([], e.filename, "", map[], false)
        case Returned(qs) =>
          if |qs| == 0 then PdfOutcome([], e.filename, e.content, e.metadata, false)
          else
            var pairs := Collected(qs, d.answers, d.completion);
            if |pairs| == 0 then PdfOutcome([], e.filename, e.content, e.metadata, false)
            else PdfOutcome(pairs, e.filename, e.content, e.metadata, true)
  }

  /** The client calls `process_pdf` makes: none without content, then the
      question call, then one answer call per question. */
  function Calls(d: DocumentInputs, numQaPairs: nat): seq<ClientCall> {
    match d.extraction
    case Raised => []
    case Returned(e) =>
      if |e.content| == 0 then []
      else match d.questions
        case Raised => [QuestionCall(e.content, numQaPairs)]
        case Returned(qs) =>
          [QuestionCall(e.content, numQaPairs)] + seq(|qs|, j requires 0 <= j < |qs| => AnswerCall(qs[j]))
  }

  /** Empty content fails without any client call. */
  lemma EmptyContentFails(d: DocumentInputs, numQaPairs: nat)
    requires WellFormed(d) && d.extraction.Returned? && |d.extraction.value.content| == 0
    ensures Outcome(d) == PdfOutcome([], d.extraction.value.filename, "", map[], false)
    ensures Calls(d, numQaPairs) == []
  {
  }

  /** No questions fails after the single question call, with no answer call. */
  lemma NoQuestionsFails(d: DocumentInputs, numQaPairs: nat)
    requires WellFormed(d) && d.extraction.Returned? && |d.extraction.value.content| > 0
    requires d.questions == Returned([])
    ensures !Outcome(d).success && Outcome(d).qaPairs == []
    ensures Outcome(d).content == d.extraction.value.content
    ensures Calls(d, numQaPairs) == [QuestionCall(d.extraction.value.content, numQaPairs)]
  {
  }

  /** Success exactly when some question got a non-empty answer; a failure
      carries no pairs; a success carries exactly the answered questions,
      each with its own answer. */
  lemma {:induction false} SuccessIffSomeAnswer(d: DocumentInputs)
    requires WellFormed(d)
    ensures Outcome(d).success <==>
      d.extraction.Returned? && |d.extraction.value.content| > 0 && d.questions.Returned?
      && |AnsweredIndices(d.answers)| > 0
    ensures !Outcome(d).success ==> Outcome(d).qaPairs == []
    ensures Outcome(d).success ==>
      |Outcome(d).qaPairs| == |AnsweredIndices(d.answers)|
      && forall p :: p in Outcome(d).qaPairs <==>
        exists j | 0 <= j < |d.answers| ::
          Answered(d.answers[j]) && p == QAPair(d.questions.value[j], d.answers[j].value)
  {
    if d.extraction.Returned? && d.questions.Returned? {
      var qs := d.questions.value;
      if |qs| == 0 {
        assert AnsweredIndices(d.answers) == {};
      } else {
        CollectionIsOrderFree(qs, d.answers, d.completion);
      }
    }
  }

  /** The generator: `num_qa_pairs` is fixed at construction and
      `failed_files` is the field each run rebuilds. */
  class QAGenerator {
    const numQaPairs: nat
    var failedFiles: seq<string>

    /** `QAGenerator(num_qa_pairs=…)`: no failed files yet. */
    constructor (numQaPairs: nat)
      ensures this.numQaPairs == numQaPairs && failedFiles == []
    {
      this.numQaPairs := numQaPairs;
      failedFiles := [];
    }

    /** `process_pdf`: the outcome and the client calls it made. */
    method ProcessPdf(d: DocumentInputs) returns (r: PdfOutcome, calls: seq<ClientCall>)
      requires WellFormed(d)
      ensures r == Outcome(d)
      ensures calls == Calls(d, numQaPairs)
    {
      calls := [];
      if d.extraction.Raised? {
        r := PdfOutcome([], BaseName(d.path), "", map[], false);
        return;
      }
      var Extraction(content, filename, metadata) := d.extraction.value;
      if |content| == 0 {
        r := PdfOutcome([], filename, "", map[], false);
        return;
      }
      calls := [QuestionCall(content, numQaPairs)];
      if d.questions.Raised? {
        r := PdfOutcome([], filename, "", map[], false);
        return;
      }
      var questions := d.questions.value;
      if |questions| == 0 {
        r := PdfOutcome([], filename, content, metadata, false);
        return;
      }
      calls := calls + seq(|questions|, j requires 0 <= j < |questions| => AnswerCall(questions[j]));
      var qaPairs, failedCount := CollectAnswers(questions, d.answers, d.completion);
      if |qaPairs| == 0 {
        r := PdfOutcome([], filename, content, metadata, false);
        return;
      }
      r := PdfOutcome(qaPairs, filename, content, metadata, true);
    }

    /** `generate_qa_from_pdfs`. The documents complete in the order `order`;
        a successful one is appended to the results, a failed one's filename
        to `failedFiles`. With no documents nothing is reset. */
    method GenerateQaFromPdfs(docs: seq<DocumentInputs>, order: seq<nat>)
      returns (results: seq<PdfOutcome>, failed: seq<string>)
      requires forall i | 0 <= i < |docs| :: WellFormed(docs[i])
      requires IsCompletionOrder(order, |docs|)
      modifies this
      ensures |docs| == 0 ==> results == [] && failed == [] && failedFiles == old(failedFiles)
      ensures |docs| > 0 ==> results == Successes(docs, order) && failedFiles == FailedNames(docs, order)
      ensures |docs| > 0 ==> failed == failedFiles
    {
      if |docs| == 0 {
        return [], [];
      }
      results := [];
      failedFiles := [];
      for t := 0 to |order|
        invariant results == Successes(docs, order[..t])
        invariant failedFiles == FailedNames(docs, order[..t])
      {
        assert order[..t + 1][..t] == order[..t];
        var r, _ := ProcessPdf(docs[order[t]]);
        if r.success {
          results := results + [r];
        } else {
          failedFiles := failedFiles + [r.filename];
        }
      }
      assert order[..|order|] == order;
      failed := failedFiles;
    }
  }

  /** The successful outcomes, in completion order. */
  function Successes(docs: seq<DocumentInputs>, order: seq<nat>): seq<PdfOutcome>
    requires forall i | 0 <= i < |docs| :: WellFormed(docs[i])
    requires forall t | 0 <= t < |order| :: order[t] < |docs|
  {
    if order == [] then []
    else
      var r := Outcome(docs[order[|order| - 1]]);
      Successes(docs, order[..|order| - 1]) + (if r.success then [r] else [])
  }

  /** The filenames of the failed outcomes, in completion order. */
  function FailedNames(docs: seq<DocumentInputs>, order: seq<nat>): seq<string>
    requires forall i | 0 <= i < |docs| :: WellFormed(docs[i])
    requires forall t | 0 <= t < |order| :: order[t] < |docs|
  {
    if order == [] then []
    else
      var r := Outcome(docs[order[|order| - 1]]);
      FailedNames(docs, order[..|order| - 1]) + (if r.success then [] else [r.filename])
  }

  /** Every document lands in exactly one of the two lists; the results are
      all successes and hold pairs. */
  lemma {:induction false} EveryDocumentLandsOnce(docs: seq<DocumentInputs>, order: seq<nat>)
    requires forall i | 0 <= i < |docs| :: WellFormed(docs[i])
    requires forall t | 0 <= t < |order| :: order[t] < |docs|
    ensures |Successes(docs, order)| + |FailedNames(docs, order)| == |order|
    ensures forall k | 0 <= k < |Successes(docs, order)| ::
      Successes(docs, order)[k].success && |Successes(docs, order)[k].qaPairs| > 0
  {
    if order != [] {
      EveryDocumentLandsOnce(docs, order[..|order| - 1]);
    }
  }
}
