/**
 * Grading a quiz submission (`submit_quiz`): each stored
 * question is compared with the answer submitted under its index, written in
 * decimal as the key of the answers object.
 */
module Grading {
  import opened Wrappers
  import opened JsonValues

  /** The counts `submit_quiz` computes: correct answers and questions. */
  datatype Grade = Grade(correct: nat, total: nat)

  /** The first `n` questions are dicts, so `question.get(...)` works on each. */
  predicate ObjectsUpTo(qs: seq<Json>, n: nat) {
    n <= |qs| && forall i :: 0 <= i < n ==> qs[i].JObj?
  }

  /** `answers.get(str(idx)) == question.get('correct_answer')`. */
  predicate Matches(q: Json, answers: map<string, Json>, idx: nat)
    requires q.JObj?
  {
    Get(answers, DecimalString(idx)) == Get(q.fields, "correct_answer")
  }

  /**
   * Both sides of the comparison are None when the key is absent, so an
   * unanswered question matches exactly when it has no (or a null) correct
   * answer; an answered question with a correct answer matches exactly when
   * the two are equal.
   */
  lemma UnansweredMatchesUnkeyed(q: Json, answers: map<string, Json>, idx: nat)
    requires q.JObj?
    ensures DecimalString(idx) !in answers ==>
      (Matches(q, answers, idx) <==> Get(q.fields, "correct_answer") == JNull)
    ensures DecimalString(idx) in answers && "correct_answer" in q.fields ==>
      (Matches(q, answers, idx) <==> answers[DecimalString(idx)] == q.fields["correct_answer"])
  {
  }

  /** The number of the first `n` questions answered correctly. */
  function CountCorrect(qs: seq<Json>, answers: map<string, Json>, n: nat): (c: nat)
    requires ObjectsUpTo(qs, n)
    ensures c <= n
  {
    if n == 0 then 0
    else CountCorrect(qs, answers, n - 1) + (if Matches(qs[n - 1], answers, n - 1) then 1 else 0)
  }

  /**
   * The grade of `answers` against stored `questions`, or None when grading
   * raises: `len` of a value that has none, or `.get` on a question that is
   * not a dict.
   */
  function Graded(questions: Json, answers: map<string, Json>): (g: Option<Grade>)
    ensures g.Some? ==> g.value.correct <= g.value.total
  {
    match Rows(questions)
    case None => None
    case Some(qs) =>
      if ObjectsUpTo(qs, |qs|) then Some(Grade(CountCorrect(qs, answers, |qs|), |qs|)) else None
  }

  /**
   * `correct / total if total > 0 else 0`. For a grade it lies in [0, 1]; it
   * is 1 exactly for a non-empty quiz answered fully, and 0 exactly when
   * nothing is correct or there are no questions.
   */
  function Score(correct: nat, total: nat): (score: real)
    ensures correct <= total ==> 0.0 <= score <= 1.0
    ensures correct <= total ==> (score == 1.0 <==> total > 0 && correct == total)
    ensures score == 0.0 <==> correct == 0 || total == 0
  {
    if total > 0 then
      var score := correct as real / total as real;
      assert score * total as real == correct as real;
      score
    else 0.0
  }

  /**
   * The scoring loop of `submit_quiz`: walk the questions in order, counting those
   * whose correct answer equals the submitted one.
   */
  method GradeSubmission(questions: Json, answers: map<string, Json>) returns (g: Option<Grade>)
    ensures g == Graded(questions, answers)
  {
    var rows := Rows(questions);
    if rows.None? {
      return None;
    }
    var qs := rows.value;
    var total := |qs|;
    var correct := 0;
    var idx := 0;
    while idx < |qs|
      invariant 0 <= idx <= |qs|
      invariant ObjectsUpTo(qs, idx)
      invariant correct == CountCorrect(qs, answers, idx)
    {
      var question := qs[idx];
      if !question.JObj? {
        return None;
      }
      var userAnswer := Get(answers, DecimalString(idx));
      if userAnswer == Get(question.fields, "correct_answer") {
        correct := correct + 1;
      }
      idx := idx + 1;
    }
    g := Some(Grade(correct, total));
  }

  // ---------------------------------------------------------------------------
  // Properties of the grade

  /** The indices among the first `n` whose answer matches. */
  ghost function MatchingIndices(qs: seq<Json>, answers: map<string, Json>, n: nat): set<nat>
    requires ObjectsUpTo(qs, n)
  {
    set i: nat | i < n && Matches(qs[i], answers, i)
  }

  lemma {:induction false} CountCorrectIsMatchingIndices(qs: seq<Json>, answers: map<string, Json>, n: nat)
    requires ObjectsUpTo(qs, n)
    ensures CountCorrect(qs, answers, n) == |MatchingIndices(qs, answers, n)|
  {
    if n > 0 {
      CountCorrectIsMatchingIndices(qs, answers, n - 1);
      var before := MatchingIndices(qs, answers, n - 1);
      if Matches(qs[n - 1], answers, n - 1) {
        assert MatchingIndices(qs, answers, n) == before + {n - 1};
      } else {
        assert MatchingIndices(qs, answers, n) == before;
      }
    }
  }

  /**
   * `correct` is the number of question indices whose answer matches, and
   * `total` is the number of stored questions, so 0 <= correct <= total.
   */
  lemma GradeCountsMatchingIndices(questions: Json, answers: map<string, Json>)
    requires Graded(questions, answers).Some?
    ensures var g := Graded(questions, answers).value;
      var qs := Rows(questions).value;
      && g.total == |qs|
      && g.correct == |set i: nat | i < |qs| && Matches(qs[i], answers, i)|
      && g.correct <= g.total
  {
    CountCorrectIsMatchingIndices(Rows(questions).value, answers, |Rows(questions).value|);
  }

  /** Whether grading succeeds, and the total, depend on the stored questions alone. */
  lemma TotalIgnoresAnswers(questions: Json, a1: map<string, Json>, a2: map<string, Json>)
    ensures Graded(questions, a1).Some? <==> Graded(questions, a2).Some?
    ensures Graded(questions, a1).Some? ==> Graded(questions, a1).value.total == Graded(questions, a2).value.total
  {
  }

  lemma {:induction false} CountCorrectAgreement(qs: seq<Json>, a1: map<string, Json>, a2: map<string, Json>, n: nat)
    requires ObjectsUpTo(qs, n)
    requires forall i: nat :: i < n ==> Get(a1, DecimalString(i)) == Get(a2, DecimalString(i))
    ensures CountCorrect(qs, a1, n) == CountCorrect(qs, a2, n)
  {
    if n > 0 {
      CountCorrectAgreement(qs, a1, a2, n - 1);
    }
  }

  /**
   * Only the keys "0" .. str(total - 1) are read: two submissions that agree
   * on them get the same grade, whatever other keys they carry.
   */
  lemma ExtraKeysIgnored(questions: Json, a1: map<string, Json>, a2: map<string, Json>)
    requires forall i: nat :: questions.JArr? && i < |questions.items| ==> Get(a1, DecimalString(i)) == Get(a2, DecimalString(i))
    ensures Graded(questions, a1) == Graded(questions, a2)
  {
    var rows := Rows(questions);
    if rows.Some? && ObjectsUpTo(rows.value, |rows.value|) {
      CountCorrectAgreement(rows.value, a1, a2, |rows.value|);
    }
  }

  lemma {:induction false} NoAnswersCountNothing(qs: seq<Json>, n: nat)
    requires ObjectsUpTo(qs, n)
    requires forall i :: 0 <= i < n ==> Get(qs[i].fields, "correct_answer") != JNull
    ensures CountCorrect(qs, map[], n) == 0
  {
    if n > 0 {
      NoAnswersCountNothing(qs, n - 1);
    }
  }

  /**
   * A missing answer counts as wrong for every question that has a
   * (non-null) correct answer: submitting nothing scores 0.
   */
  lemma MissingAnswersCountAsWrong(questions: Json)
    requires Graded(questions, map[]).Some?
    requires forall i :: 0 <= i < |Rows(questions).value| ==> Get(Rows(questions).value[i].fields, "correct_answer") != JNull
    ensures Graded(questions, map[]).value.correct == 0
  {
    NoAnswersCountNothing(Rows(questions).value, |Rows(questions).value|);
  }

  lemma {:induction false} RightAnswersCountAll(qs: seq<Json>, answers: map<string, Json>, n: nat)
    requires ObjectsUpTo(qs, n)
    requires forall i :: 0 <= i < n ==> Get(answers, DecimalString(i)) == Get(qs[i].fields, "correct_answer")
    ensures CountCorrect(qs, answers, n) == n
  {
    if n > 0 {
      RightAnswersCountAll(qs, answers, n - 1);
    }
  }

  /** Submitting each question's correct answer under its index scores every question. */
  lemma RightAnswersScoreFull(questions: Json, answers: map<string, Json>)
    requires Graded(questions, answers).Some?
    requires forall i :: 0 <= i < |Rows(questions).value| ==>
      Get(answers, DecimalString(i)) == Get(Rows(questions).value[i].fields, "correct_answer")
    ensures Graded(questions, answers).value.correct == Graded(questions, answers).value.total
  {
    RightAnswersCountAll(Rows(questions).value, answers, |Rows(questions).value|);
  }

  /**
   * An empty submission scores exactly the questions stored without a
   * correct answer (or with a null one): the others all count as wrong.
   */
  lemma EmptySubmissionCountsUnkeyed(questions: Json)
    requires Graded(questions, map[]).Some?
    ensures var qs := Rows(questions).value;
      Graded(questions, map[]).value.correct == |set i: nat | i < |qs| && Get(qs[i].fields, "correct_answer") == JNull|
  {
    var qs := Rows(questions).value;
    GradeCountsMatchingIndices(questions, map[]);
    forall i: nat | i < |qs| {
      UnansweredMatchesUnkeyed(qs[i], map[], i);
    }
    assert (set i: nat | i < |qs| && Matches(qs[i], map[], i))
        == (set i: nat | i < |qs| && Get(qs[i].fields, "correct_answer") == JNull);
  }
}
