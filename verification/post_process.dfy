/** post_process.py: cleaning boilerplate off the generated answers. Every
    step either slices the answer after some index or strips characters off
    its front, so what comes out is always a suffix of what went in. */
module PostProcess {
  import opened Strings

  /** `process_question`: questions are left as they are. */
  function ProcessQuestion(question: string): (r: string)
    ensures r == question
  {
    question
  }

  /** `lstrip("\n")`, `lstrip(" ")`, then `lstrip("\n---\n")`; the last one
      strips the character set {'\n', '-'}, not the string. */
  function StripLeadIn(s: string): (r: string)
    ensures |r| <= |s|
    ensures r == [] || (r[0] != '\n' && r[0] != '-')
  {
    LStrip(LStrip(LStrip(s, {'\n'}), {' '}), {'\n', '-'})
  }

  // ---------------------------------------------------------------------------
  // The three rewrites, as functions.
  // ---------------------------------------------------------------------------

  /** Lines 20-29: an answer opening with 好的 loses its first sentence, up to
      the first 。, and the lead-in after it; the lead-in is gone afterwards. */
  function DropOkSentence(answer: string): (r: string)
    ensures |r| <= |answer|
    ensures "好的" <= answer ==> r == [] || (r[0] != '\n' && r[0] != '-')
    ensures !("好的" <= answer) ==> r == answer
  {
    if "好的" <= answer then
      var k := IndexOf(answer, '。');
      StripLeadIn(if k != -1 then answer[k + 1..] else answer)
    else answer
  }

  /** One of the four stock phrases in the first 100 characters. */
  predicate MentionsSourcePhrase(answer: string) {
    OccursBefore(answer, "文献", 0, 100) || OccursBefore(answer, "严格基于", 0, 100)
    || OccursBefore(answer, "提供", 0, 100) || OccursBefore(answer, "以下", 0, 100)
  }

  /** `pat` occurs at `i` or later, ending within the first `limit` characters. */
  predicate OccursBefore(s: string, pat: string, i: nat, limit: nat)
    decreases |s| - i
  {
    i + |pat| <= |s| && i + |pat| <= limit && (s[i..i + |pat|] == pat || OccursBefore(s, pat, i + 1, limit))
  }

  /** The guard of the `while` loop at line 32. */
  predicate NeedsCleanup(answer: string) {
    MentionsSourcePhrase(answer) && !("###" <= answer)
  }

  /** Where the first sentence ends: the first ：, else the first 。, else -1. */
  function SentenceEnd(answer: string): (k: int)
    ensures k == -1 <==> '：' !in answer && '。' !in answer
    ensures k != -1 ==> 0 <= k < |answer|
  {
    var colon := IndexOf(answer, '：');
    if colon != -1 then colon else IndexOf(answer, '。')
  }

  /** Lines 32-51: drop leading sentences while a stock phrase shows early
      and the answer is not a heading. */
  function DropSourceSentences(answer: string): (r: string)
    ensures |r| <= |answer|
    decreases |answer|
  {
    if NeedsCleanup(answer) then
      var k := SentenceEnd(answer);
      if k == -1 then answer
      else DropSourceSentences(StripLeadIn(answer[k + 1..]))
    else answer
  }

  /** The answer opens by repeating the question. */
  predicate EchoesQuestion(answer: string) {
    "### **问题：" <= answer || "问题：" <= answer || "### 问题：" <= answer
  }

  /** Lines 53-63: an answer that repeats the question loses everything up to
      the first blank line. */
  function DropQuestionEcho(answer: string): (r: string)
    ensures |r| <= |answer|
    ensures !EchoesQuestion(answer) ==> r == answer
  {
    if EchoesQuestion(answer) then
      var k := Find(answer, "\n\n");
      if k != -1 then StripLeadIn(answer[k + 1..]) else answer
    else answer
  }

  /** What `process_answer` computes. */
  function CleanAnswer(answer: string): string {
    DropQuestionEcho(DropSourceSentences(DropOkSentence(answer)))
  }

  // ---------------------------------------------------------------------------
  // Every rewrite keeps a suffix of the answer.
  // ---------------------------------------------------------------------------

  lemma SuffixOfSuffix(a: string, b: string, c: string)
    requires IsSuffixOf(a, b) && IsSuffixOf(b, c)
    ensures IsSuffixOf(a, c)
  {
    assert c[|c| - |a|..] == c[|c| - |b|..][|b| - |a|..];
  }

  lemma StopIsSuffix(answer: string)
    requires NeedsCleanup(answer) && SentenceEnd(answer) == -1
    ensures IsSuffixOf(DropSourceSentences(answer), answer)
  {
    CleanupStops(answer);
    SuffixOfSelf(answer);
  }

  lemma SuffixOfSelf(s: string)
    ensures IsSuffixOf(s, s)
  {
    assert s[0..] == s;
  }

  lemma StripLeadInIsSuffix(s: string)
    ensures IsSuffixOf(StripLeadIn(s), s)
  {
    var a := LStrip(s, {'\n'});
    var b := LStrip(a, {' '});
    SuffixOfSuffix(StripLeadIn(s), b, a);
    SuffixOfSuffix(StripLeadIn(s), a, s);
  }

  /** Stripping the lead-in after cutting at `k` keeps a suffix. */
  lemma CutIsSuffix(s: string, k: nat)
    requires k <= |s|
    ensures IsSuffixOf(StripLeadIn(s[k..]), s)
  {
    StripLeadInIsSuffix(s[k..]);
    SuffixOfSuffix(StripLeadIn(s[k..]), s[k..], s);
  }

  lemma {:induction false} DropSourceSentencesIsSuffix(answer: string)
    ensures IsSuffixOf(DropSourceSentences(answer), answer)
    decreases |answer|
  {
    if !NeedsCleanup(answer) {
      CleanupDone(answer);
      SuffixOfSelf(answer);
    } else if SentenceEnd(answer) == -1 {
      StopIsSuffix(answer);
    } else {
      var next := StripLeadIn(answer[SentenceEnd(answer) + 1..]);
      CleanupStep(answer);
      CutIsSuffix(answer, SentenceEnd(answer) + 1);
      DropSourceSentencesIsSuffix(next);
      SuffixOfSuffix(DropSourceSentences(next), next, answer);
    }
  }

  lemma DropOkSentenceIsSuffix(answer: string)
    ensures IsSuffixOf(DropOkSentence(answer), answer)
  {
    if "好的" <= answer {
      var k := IndexOf(answer, '。');
      CutIsSuffix(answer, if k != -1 then k + 1 else 0);
    } else {
      SuffixOfSelf(answer);
    }
  }

  lemma DropQuestionEchoIsSuffix(answer: string)
    ensures IsSuffixOf(DropQuestionEcho(answer), answer)
  {
    if EchoesQuestion(answer) && Find(answer, "\n\n") != -1 {
      CutIsSuffix(answer, Find(answer, "\n\n") + 1);
    } else {
      SuffixOfSelf(answer);
    }
  }

  /** `process_answer` only ever removes a prefix of the answer. */
  lemma CleanAnswerIsSuffix(answer: string)
    ensures IsSuffixOf(CleanAnswer(answer), answer)
  {
    var a := DropOkSentence(answer);
    var b := DropSourceSentences(a);
    var c := DropQuestionEcho(b);
    DropOkSentenceIsSuffix(answer);
    DropSourceSentencesIsSuffix(a);
    DropQuestionEchoIsSuffix(b);
    SuffixOfSuffix(c, b, a);
    SuffixOfSuffix(c, a, answer);
  }

  // ---------------------------------------------------------------------------
  // `process_answer`, step by step.
  // ---------------------------------------------------------------------------

  /** `process_answer`: the 好的 opening, then the clean-up loop, then the
      repeated question, each cut followed by the same three `lstrip`s. */
  method ProcessAnswer(original: string) returns (answer: string)
    ensures answer == CleanAnswer(original)
  {
    answer := OkBlock(original);
    answer := CleanupLoop(answer);
    answer := EchoBlock(answer);
  }

  /** Lines 20-29. */
  method OkBlock(original: string) returns (answer: string)
    ensures answer == DropOkSentence(original)
  {
    answer := original;
    if "好的" <= answer {
      var k := IndexOf(answer, '。');
      if k != -1 {
        answer := answer[k + 1..];
      }
      assert answer == if k != -1 then original[k + 1..] else original;
      answer := StripLeadIn(answer);
    }
  }

  /** Lines 53-63. */
  method EchoBlock(original: string) returns (answer: string)
    ensures answer == DropQuestionEcho(original)
  {
    answer := original;
    if EchoesQuestion(answer) {
      var idx := Find(answer, "\n\n");
      if idx != -1 {
        answer := StripLeadIn(answer[idx + 1..]);
      }
    }
  }

  /** The `while` loop of lines 32-51. */
  method CleanupLoop(start: string) returns (answer: string)
    ensures answer == DropSourceSentences(start)
  {
    answer := start;
    while NeedsCleanup(answer)
      invariant DropSourceSentences(answer) == DropSourceSentences(start)
      decreases |answer|
    {
      var found, next := CutSentence(answer);
      if !found {
        CleanupStops(answer);
        break;
      }
      CleanupStep(answer);
      answer := next;
    }
  }

  /** The body of that loop: cut after the first ：, or failing that after
      the first 。, and strip the lead-in; `found` is false when there is
      neither, where the loop breaks. */
  method CutSentence(answer: string) returns (found: bool, next: string)
    ensures found <==> SentenceEnd(answer) != -1
    ensures found ==> next == StripLeadIn(answer[SentenceEnd(answer) + 1..]) && |next| < |answer|
  {
    var idx := IndexOf(answer, '：');
    if idx != -1 {
      next := answer[idx + 1..];
    } else {
      idx := IndexOf(answer, '。');
      if idx != -1 {
        next := answer[idx + 1..];
      } else {
        return false, answer;
      }
    }
    found := true;
    assert next == answer[SentenceEnd(answer) + 1..];
    next := StripLeadIn(next);
  }

  lemma CleanupDone(answer: string)
    requires !NeedsCleanup(answer)
    ensures DropSourceSentences(answer) == answer
  {
  }

  lemma CleanupStops(answer: string)
    requires NeedsCleanup(answer) && SentenceEnd(answer) == -1
    ensures DropSourceSentences(answer) == answer
  {
  }

  lemma CleanupStep(answer: string)
    requires NeedsCleanup(answer) && SentenceEnd(answer) != -1
    ensures DropSourceSentences(answer)
         == DropSourceSentences(StripLeadIn(answer[SentenceEnd(answer) + 1..]))
  {
  }

  /** An answer with no 好的 opening, no stock phrase early on and no
      repeated question is returned unchanged. */
  lemma UntouchedAnswer(answer: string)
    requires !("好的" <= answer) && !MentionsSourcePhrase(answer) && !EchoesQuestion(answer)
    ensures CleanAnswer(answer) == answer
  {
  }

  /** The clean-up loop stops only when no stock phrase shows in the first
      100 characters, the answer is a heading, or it holds neither ： nor 。. */
  lemma {:induction false} CleanupLoopExit(answer: string)
    ensures var r := DropSourceSentences(answer);
      !MentionsSourcePhrase(r) || "###" <= r || ('：' !in r && '。' !in r)
    decreases |answer|
  {
    if !NeedsCleanup(answer) {
      CleanupDone(answer);
    } else if SentenceEnd(answer) == -1 {
      CleanupStops(answer);
    } else {
      CleanupStep(answer);
      CleanupLoopExit(StripLeadIn(answer[SentenceEnd(answer) + 1..]));
    }
  }

  /** The lead-in strip removes a `---` rule but keeps the space after it:
      the set {'\n', '-'} is stripped after the spaces, not before. */
  lemma RuleLeavesSpace(rest: string)
    ensures StripLeadIn("--- " + rest) == " " + rest
  {
    var s := "--- " + rest;
    assert s[1..] == "-- " + rest && s[1..][1..] == "- " + rest && s[1..][1..][1..] == " " + rest;
    assert LStrip(s, {'\n'}) == s;
    assert LStrip(s, {' '}) == s;
    var dash: set<char> := {'\n', '-'};
    assert LStrip(" " + rest, dash) == " " + rest;
    assert LStrip(s, dash) == " " + rest;
  }

  // ---------------------------------------------------------------------------
  // `post_process`: the pair dictionaries are updated in place.
  // ---------------------------------------------------------------------------

  /** One `{"question": …, "answer": …}` dictionary. */
  class PairDict {
    var question: string
    var answer: string

    constructor (question: string, answer: string)
      ensures this.question == question && this.answer == answer
    {
      this.question := question;
      this.answer := answer;
    }
  }

  /** `f` applied `k` times: `post_process` applies `process_answer` to a
      dictionary once per time the dictionary occurs in the list. */
  function ApplyTimes(f: string -> string, k: nat, s: string): string {
    if k == 0 then s else f(ApplyTimes(f, k - 1, s))
  }

  /** `post_process(qa_pairs)`: returns the same dictionaries in the same
      order, each question unchanged and each answer cleaned once per time
      the dictionary occurs in the list. */
  method PostProcess(qaPairs: seq<PairDict>) returns (newQaPairs: seq<PairDict>)
    modifies set p | p in qaPairs
    ensures newQaPairs == qaPairs
    ensures forall p | p in qaPairs ::
      p.question == old(p.question) && p.answer == ApplyTimes(CleanAnswer, multiset(qaPairs)[p], old(p.answer))
  {
    newQaPairs := [];
    for i := 0 to |qaPairs|
      invariant newQaPairs == qaPairs[..i]
      invariant forall p | p in qaPairs ::
        p.question == old(p.question)
        && p.answer == ApplyTimes(CleanAnswer, multiset(qaPairs[..i])[p], old(p.answer))
    {
      var qaPair := qaPairs[i];
      label Before:
      qaPair.question := ProcessQuestion(qaPair.question);
      qaPair.answer := ProcessAnswer(qaPair.answer);
      PrefixStep(qaPairs, i);
      newQaPairs := newQaPairs + [qaPair];
      forall p | p in qaPairs
        ensures p.question == old(p.question)
        ensures p.answer == ApplyTimes(CleanAnswer, multiset(qaPairs[..i + 1])[p], old(p.answer))
      {
        ApplyStep(CleanAnswer, qaPairs, i, p, old(p.answer), old@Before(p.answer), p.answer);
      }
    }
    PrefixAll(qaPairs);
  }

  lemma PrefixStep(xs: seq<PairDict>, i: nat)
    requires i < |xs|
    ensures xs[..i] + [xs[i]] == xs[..i + 1]
  {
  }

  lemma PrefixAll(xs: seq<PairDict>)
    ensures xs[..|xs|] == xs
  {
  }

  /** One pass of the loop of `post_process`, on the values of one dictionary's
      field: `f` is applied once more exactly when the pass visits that dictionary. */
  lemma {:induction false} ApplyStep(f: string -> string, xs: seq<PairDict>, i: nat, p: PairDict,
                                     original: string, before: string, after: string)
    requires i < |xs|
    requires before == ApplyTimes(f, multiset(xs[..i])[p], original)
    requires p == xs[i] ==> after == f(before)
    requires p != xs[i] ==> after == before
    ensures after == ApplyTimes(f, multiset(xs[..i + 1])[p], original)
  {
    CountStep(xs, i, p);
    if p == xs[i] {
      assert multiset(xs[..i + 1])[p] == multiset(xs[..i])[p] + 1;
    } else {
      assert multiset(xs[..i + 1])[p] == multiset(xs[..i])[p];
    }
  }

  /** Extending a prefix by one element adds one occurrence of that element only. */
  lemma {:induction false} CountStep(xs: seq<PairDict>, i: nat, p: PairDict)
    requires i < |xs|
    ensures multiset(xs[..i + 1])[p] == multiset(xs[..i])[p] + (if p == xs[i] then 1 else 0)
  {
    assert xs[..i + 1] == xs[..i] + [xs[i]];
  }

  /** When no dictionary occurs twice, each answer is cleaned exactly once. */
  lemma DistinctPairsAreCleanedOnce(qaPairs: seq<PairDict>, p: PairDict)
    requires forall i, j | 0 <= i < j < |qaPairs| :: qaPairs[i] != qaPairs[j]
    requires p in qaPairs
    ensures multiset(qaPairs)[p] == 1
    ensures forall a :: ApplyTimes(CleanAnswer, multiset(qaPairs)[p], a) == CleanAnswer(a)
  {
    DistinctOccursOnce(qaPairs, p);
  }

  lemma {:induction false} DistinctOccursOnce(xs: seq<PairDict>, p: PairDict)
    requires forall i, j | 0 <= i < j < |xs| :: xs[i] != xs[j]
    ensures multiset(xs)[p] == if p in xs then 1 else 0
  {
    if xs != [] {
      var init := xs[..|xs| - 1];
      assert xs == init + [xs[|xs| - 1]];
      DistinctOccursOnce(init, p);
      if p == xs[|xs| - 1] {
        assert p !in init;
      }
    }
  }
}
