/**
 * The deterministic parts of the quiz generator: the instruction chosen for a
 * difficulty, the post-processing of the language model's reply into a list
 * of questions, and the difficulty adaptation rule. The model call itself is
 * not modelled; its reply is an arbitrary string.
 */
module QuizGenerator {
  import opened Wrappers
  import opened JsonValues
  import opened Database
  import Span

  /** The instruction added to the prompt for each known difficulty. */
  const DifficultyInstructions: map<string, string> := map[
    "easy" := "Create basic recall and understanding questions.",
    "medium" := "Create application and analysis questions.",
    "hard" := "Create complex synthesis and evaluation questions."
  ]

  /** `difficulty_instructions.get(difficulty, '')`: empty exactly for an undocumented difficulty. */
  function DifficultyInstruction(difficulty: string): (r: string)
    ensures r == "" <==> !DocumentedDifficulty(difficulty)
    ensures difficulty in DifficultyInstructions ==> r == DifficultyInstructions[difficulty]
  {
    if difficulty in DifficultyInstructions then DifficultyInstructions[difficulty] else ""
  }

  // ---------------------------------------------------------------------------
  // Post-processing the reply

  const FallbackQuestion: Json := JObj(map[
    "question" := JStr("Sample question about the topic"),
    "options" := JArr([JStr("A) Option 1"), JStr("B) Option 2"), JStr("C) Option 3"), JStr("D) Option 4")]),
    "correct_answer" := JStr("A"),
    "explanation" := JStr("This is a sample question.")
  ])

  /**
   * The quiz returned when the reply cannot be parsed: a single well-formed
   * question with four options labelled A) to D), whose correct answer "A"
   * is the label of its first option.
   */
  function FallbackQuiz(): (quiz: Json)
    ensures quiz.JArr? && |quiz.items| == 1
    ensures var q := quiz.items[0];
      && WellFormedQuestion(q)
      && |q.fields["options"].items| == 4
      && (forall i :: 0 <= i < 4 ==> Label(q.fields["options"].items[i]) == [['A', 'B', 'C', 'D'][i]])
      && q.fields["correct_answer"] == JStr(Label(q.fields["options"].items[0]))
  {
    var options := FallbackQuestion.fields["options"].items;
    assert Label(options[0]) == "A";
    assert Label(options[1]) == "B";
    assert Label(options[2]) == "C";
    assert Label(options[3]) == "D";
    assert FallbackQuestion.fields["correct_answer"] == JStr(Label(options[0]));
    JArr([FallbackQuestion])
  }

  /**
   * The questions `generate_quiz` returns for a reply. The text parsed runs
   * from the first `[` to the last `]` when a `[` precedes a `]`, and is the
   * whole reply otherwise; a successful parse is returned as it is, list or
   * not, and a failed one gives the fallback, a single well-formed question.
   */
  function ExtractQuestions(reply: string, parse: string -> Option<Json>): (questions: Json)
    ensures Span.HasSpan(reply, '[', ']') ==>
      exists f: nat, l: nat ::
        && f < l && Span.IsFirst(reply, '[', f) && Span.IsLast(reply, ']', l)
        && questions == (if parse(reply[f..l + 1]).Some? then parse(reply[f..l + 1]).value else FallbackQuiz())
    ensures !Span.HasSpan(reply, '[', ']') ==>
      questions == (if parse(reply).Some? then parse(reply).value else FallbackQuiz())
    ensures parse(Span.Extract(reply, '[', ']')).None? ==>
      questions.JArr? && |questions.items| == 1 && WellFormedQuestion(questions.items[0])
  {
    match parse(Span.Extract(reply, '[', ']'))
    case Some(parsed) => parsed
    case None => FallbackQuiz()
  }

  /** The label of an option written like "A) Option 1": its leading capital letter. */
  predicate LabelledOption(option: Json) {
    option.JStr? && |option.s| >= 2 && 'A' <= option.s[0] <= 'Z' && option.s[1] == ')'
  }

  function Label(option: Json): string
    requires LabelledOption(option)
  {
    option.s[..1]
  }

  /**
   * The question shape the prompt asks for: a non-empty list of labelled
   * options with distinct labels, and a correct answer that is one of the labels.
   */
  predicate WellFormedQuestion(q: Json) {
    && q.JObj?
    && "options" in q.fields && q.fields["options"].JArr?
    && var options := q.fields["options"].items;
    && |options| > 0
    && (forall i :: 0 <= i < |options| ==> LabelledOption(options[i]))
    && (forall i, j :: 0 <= i < j < |options| ==> Label(options[i]) != Label(options[j]))
    && "correct_answer" in q.fields
    && exists i :: 0 <= i < |options| && q.fields["correct_answer"] == JStr(Label(options[i]))
  }

  // ---------------------------------------------------------------------------
  // Difficulty adaptation

  /** The position of a documented difficulty on the scale easy < medium < hard. */
  function Level(d: string): (l: int)
    requires DocumentedDifficulty(d)
    ensures 0 <= l <= 2
  {
    if d == "easy" then 0 else if d == "medium" then 1 else 2
  }

  /** The step a score asks for: up from 0.8, down below 0.5, none in between. */
  function Step(userScore: real): int {
    if userScore >= 0.8 then 1 else if userScore < 0.5 then -1 else 0
  }

  function Clamp(l: int): int {
    if l < 0 then 0 else if l > 2 then 2 else l
  }

  /**
   * `adapt_difficulty`: the next difficulty suggested after scoring
   * `userScore` at `current`. On the three documented levels it is a clamped
   * step: one level up for a high score, one down for a low one, and no move
   * at the ends of the scale or in the middle band. An unrecognised
   * difficulty jumps to "hard" on a high score and to "easy" on a low one.
   */
  function AdaptDifficulty(userScore: real, current: string): (next: string)
    ensures DocumentedDifficulty(current) ==>
      DocumentedDifficulty(next) && Level(next) == Clamp(Level(current) + Step(userScore))
    ensures !DocumentedDifficulty(current) ==>
      next == (if userScore >= 0.8 then "hard" else if userScore < 0.5 then "easy" else current)
  {
    if userScore >= 0.8 && current != "hard" then
      if current == "easy" then "medium" else "hard"
    else if userScore < 0.5 && current != "easy" then
      if current == "hard" then "medium" else "easy"
    else
      current
  }

  /** From a documented level the result is documented and at most one level away. */
  lemma AdaptMovesAtMostOneLevel(userScore: real, current: string)
    requires DocumentedDifficulty(current)
    ensures DocumentedDifficulty(AdaptDifficulty(userScore, current))
    ensures -1 <= Level(AdaptDifficulty(userScore, current)) - Level(current) <= 1
  {
  }

  /** A better score never suggests an easier level. */
  lemma AdaptMonotone(s1: real, s2: real, current: string)
    requires DocumentedDifficulty(current) && s1 <= s2
    ensures Level(AdaptDifficulty(s1, current)) <= Level(AdaptDifficulty(s2, current))
  {
  }

  /**
   * The fixed points: any difficulty is kept for a score in [0.5, 0.8); "hard"
   * is kept for any score of at least 0.5 and "easy" for any score below 0.8.
   */
  lemma AdaptFixedPoints(userScore: real, current: string)
    ensures 0.5 <= userScore < 0.8 ==> AdaptDifficulty(userScore, current) == current
    ensures current == "hard" && userScore >= 0.5 ==> AdaptDifficulty(userScore, current) == "hard"
    ensures current == "easy" && userScore < 0.8 ==> AdaptDifficulty(userScore, current) == "easy"
  {
  }
}
