# NeuraLearn backend core in Dafny

This project models the core of the NeuraLearn study-assistant backend: the
FastAPI route handlers that keep users, quizzes, quiz results, per-topic
progress and knowledge graphs in the database; the grading loop of a quiz
submission; the analytics aggregation; and the deterministic parts of the
quiz generator and the knowledge-graph builder. Those parts are the choice
of a difficulty instruction, the extraction of JSON from the language
model's reply, the fallback results, the graph-vertex and node-position
loops, and the difficulty adaptation rule.

Layout:

- `wrappers.dfy` (`Wrappers`): `Option`.
- `json_values.dfy` (`JsonValues`): JSON values. It also holds Python
  iteration over a JSON value (`Rows`) and `str(n)` for indices
  (`DecimalString`).
- `span.dfy` (`Span`): the span the greedy, DOTALL regular expressions
  `\[.*\]` and `\{.*\}` find. That is the text from the first opening
  bracket to the last closing one.
- `database.dfy` (`Database`): the table rows, column defaults and schema
  constraints.
- `quiz_generator.dfy` (`QuizGenerator`): difficulty instructions, reply
  post-processing, the fallback quiz and `adapt_difficulty`.
- `knowledge_graph.dfy` (`KnowledgeGraphBuilder`): the `{`…`}` span, the
  structure check, the vertex and position loops (as methods with loops) and
  the fallback graph.
- `grading.dfy` (`Grading`): the scoring loop of `submit_quiz`, as a method
  proved against a recursive count.
- `tables.dfy` (`Tables`): the handlers' queries, row upserts, invariants and
  analytics, all as functions on sequences of rows.
- `server.dfy` (`Server`): class `Store`. Its fields are the five tables and
  its methods are the route handlers. Every handler keeps `Valid()`: unique
  emails, auto-increment ids, one progress row per (user, topic), scores and
  mastery in [0, 1], and, per user, as many quizzes counted on the progress
  rows as there are quiz results.

The language model, the JSON parser and the force-directed layout are
parameters. The model's reply is an `Option<string>`, where `None` means the
call raised. `json.loads` is a function `string -> Option<Json>`. The layout
is a function giving each vertex of a graph a position.

### Where the code differs from the documented behaviour

- The documented client sends exactly one answer per question. The server
  does not check this: it accepts any answers object.
  - Keys other than "0" … "N-1" are ignored (`Grading.ExtraKeysIgnored`).
  - A missing answer is wrong when the question has a correct answer
    (`Grading.MissingAnswersCountAsWrong`).
  - A missing answer is right when the question has no `correct_answer`,
    because both sides of the comparison are None
    (`Grading.UnansweredMatchesUnkeyed`, `Grading.EmptySubmissionCountsUnkeyed`).
- The documented quiz has the requested number of questions, each with a
  correct answer among its option labels. The server stores whatever the
  model's reply parses to, list or not, of any length. Only the fallback
  quiz is known to be well formed (`QuizGenerator.FallbackQuiz`).
- The mastery score is documented to lie in [0, 1]. Nothing in the schema
  enforces this. It holds because every stored score lies in [0, 1] and an
  update averages two values in [0, 1]. It is proved as part of
  `Server.Store.Valid`.

## Model

| member | source | states |
|---|---|---|
| JsonValues.Rows | backend/server.py:233-235 | iterating a list gives its items; the only other values that iterate without raising give no rows |
| JsonValues.DecimalString | backend/server.py:236 | `str(idx)` is a non-empty digit string without a leading zero |
| JsonValues.DecimalRoundTrip | backend/server.py:236 | reading `str(n)` back as a decimal gives `n` |
| JsonValues.DecimalStringInjective | backend/server.py:236 | distinct question indices use distinct answer keys |
| Span.FirstIndex | backend/quiz_generator.py:53 | the first position of a character, or none when it does not occur |
| Span.LastIndex | backend/quiz_generator.py:53 | the last position of a character, or none when it does not occur |
| Span.Extract | backend/quiz_generator.py:53-57 | when an opening bracket precedes a closing one, the text parsed runs from the first opening bracket to the last closing one, so it starts and ends with them and is no longer than the reply; otherwise it is the whole reply |
| QuizGenerator.DifficultyInstruction | backend/quiz_generator.py:21-25 | the instruction is empty exactly for a difficulty outside easy/medium/hard, and is the listed sentence otherwise |
| QuizGenerator.ExtractQuestions | backend/quiz_generator.py:52-66 | the text parsed runs from the first `[` to the last `]` when a `[` precedes a `]`, else it is the whole reply; a successful parse is returned unchanged, and a failed one gives a single well-formed question |
| QuizGenerator.FallbackQuiz | backend/quiz_generator.py:61-66 | the fallback is one well-formed question with options labelled A to D and correct answer "A", the label of its first option |
| QuizGenerator.AdaptDifficulty | backend/quiz_generator.py:81-93 | on easy < medium < hard, the next level is one up for a score of at least 0.8, one down below 0.5, otherwise unchanged, clamped to the scale; an unrecognised difficulty goes to hard on a high score, to easy on a low one, and is kept otherwise |
| QuizGenerator.AdaptMovesAtMostOneLevel | backend/quiz_generator.py:81-93 | from a known level the suggestion is known and at most one level away |
| QuizGenerator.AdaptMonotone | backend/quiz_generator.py:81-93 | a better score never suggests an easier level |
| QuizGenerator.AdaptFixedPoints | backend/quiz_generator.py:81-93 | any difficulty is kept for a score in [0.5, 0.8); hard is kept from 0.5 up and easy below 0.8 |
| KnowledgeGraphBuilder.LayoutVertices | backend/knowledge_graph.py:57-61 | the loops succeed exactly when every node has a usable id and every edge usable endpoints, and then the graph's vertices are exactly those ids and endpoints |
| KnowledgeGraphBuilder.AssignPositions | backend/knowledge_graph.py:67-70 | every node whose id has a position gets `x`/`y` from it, the others stay as they are, the list keeps its length and order |
| KnowledgeGraphBuilder.WithPositionOnlyAddsCoordinates | backend/knowledge_graph.py:69-70 | positioning a node adds numeric `x` and `y` and keeps every other field |
| KnowledgeGraphBuilder.BuildGraph | backend/knowledge_graph.py:43-80 | the `{`...`}` span of the reply is parsed; a value with `nodes` and `edges` that lays out comes back with each node placed where the layout of all vertices puts it and nothing else changed; every other reply gives the fallback graph |
| KnowledgeGraphBuilder.FallbackGraph | backend/knowledge_graph.py:73-80 | the fallback has one node, "main_topic", labelled with the topic, of type "core" at (0, 0), and no edges; it passes the structure check itself |
| KnowledgeGraphBuilder.MissingKeysGiveFallback | backend/knowledge_graph.py:53-54 | a parsed value without both `nodes` and `edges` never lays out |
| Grading.CountCorrect | backend/server.py:235-238 | at most one is counted per question |
| Grading.UnansweredMatchesUnkeyed | backend/server.py:236-237 | an unanswered question matches exactly when its correct answer is absent or null; an answered one with a correct answer matches exactly when the two are equal |
| Grading.Graded | backend/server.py:232-238 | a grade never counts more correct answers than questions |
| Grading.GradeSubmission | backend/server.py:232-238 | the scoring loop computes the grade: none when `len` or `.get` raises, else the matching count and the number of questions |
| Grading.CountCorrectIsMatchingIndices | backend/server.py:235-238 | the count is the number of indices whose submitted answer equals the correct answer |
| Grading.GradeCountsMatchingIndices | backend/server.py:232-238 | `correct` is the number of matching indices, `total` the number of questions, and correct <= total |
| Grading.TotalIgnoresAnswers | backend/server.py:233 | whether grading succeeds, and the total, depend only on the stored questions |
| Grading.CountCorrectAgreement | backend/server.py:236 | two answer objects that agree on the keys read give the same count |
| Grading.ExtraKeysIgnored | backend/server.py:235-237 | only the keys "0" to str(total - 1) affect the grade |
| Grading.NoAnswersCountNothing | backend/server.py:236-238 | with no answers, no question that has a correct answer is counted |
| Grading.MissingAnswersCountAsWrong | backend/server.py:236-238 | an empty submission scores 0 when every question has a correct answer |
| Grading.RightAnswersCountAll | backend/server.py:236-238 | answering every question correctly counts every question |
| Grading.RightAnswersScoreFull | backend/server.py:232-238 | submitting each correct answer under its index gives correct == total |
| Grading.EmptySubmissionCountsUnkeyed | backend/server.py:235-238 | an empty submission scores exactly the questions stored without a (non-null) correct answer |
| Grading.Score | backend/server.py:240 | for a grade the score lies in [0, 1]; it is 1 exactly for a non-empty quiz fully answered, and 0 exactly when nothing is correct or there are no questions |
| Tables.FirstWhere | backend/server.py:86 | `.first()` gives the earliest matching row, or none exactly when no row matches |
| Tables.UserByIdFound | backend/server.py:98 | with auto-increment ids, user `id` exists exactly when 1 <= id <= number of users |
| Tables.CreateUserRows | backend/server.py:86-94 | the returned user has the email and is what a lookup by email then finds; the table is unchanged when the email was known, else gains that user with the next id and the given name |
| Tables.CreateUserKeepsInvariants | backend/server.py:86-94 | creating a user keeps emails unique and ids sequential, returns a user with that email, and adds a row exactly when the email was new |
| Tables.CreateUserIdempotent | backend/server.py:86-88 | a second call with the same email and any name changes nothing and returns the same user |
| Tables.RecordQuizScore | backend/server.py:253-269 | the table grows by one row exactly when the (user, topic) row was missing, and every row of another (user, topic) is unchanged |
| Tables.AddStudyTime | backend/server.py:294-308 | the table grows by one row exactly when the (user, topic) row was missing, every row of another (user, topic) is unchanged, and the row returned has that user and topic |
| Tables.RecordQuizScoreRow | backend/server.py:253-269 | the existing (user, topic) row takes one more quiz and averages its mastery with the score, other rows unchanged; without one, a row with mastery = score, one quiz and no study time is appended |
| Tables.AddStudyTimeRow | backend/server.py:294-308 | the existing (user, topic) row gains the minutes, other rows unchanged; without one, a row with those minutes, mastery 0 and no quizzes is appended; the row returned is the stored one |
| Tables.UpsertKeepsOneRowPerTopic | backend/server.py:253-269 | updating the found row or appending a row for a missing (user, topic) keeps that pair unique |
| Tables.RecordQuizScoreKeepsInvariants | backend/server.py:253-269 | recording a score in [0, 1] keeps one row per (user, topic) and every mastery in [0, 1] |
| Tables.AddStudyTimeKeepsInvariants | backend/server.py:294-308 | logging study time keeps one row per (user, topic) and every mastery in [0, 1] |
| Tables.UserProgress | backend/server.py:352 | the rows returned all belong to the user and come from the table, and every row of the user is among them |
| Tables.UserResults | backend/server.py:353 | the results returned all belong to the user and come from the table, and every result of the user is among them |
| Tables.SelectsInOrderAppend | backend/server.py:352-353 | appending a row extends an in-order selection by that row exactly when it is selected |
| Tables.UserProgressInOrder | backend/server.py:352 | `.all()` on progress gives exactly the user's rows, each once, in table order |
| Tables.UserResultsInOrder | backend/server.py:353 | `.all()` on quiz results gives exactly the user's results, each once, in table order |
| Tables.SumsAppend | backend/server.py:356 | a row appended to a list adds its study time and quiz count to the sums |
| Tables.AppendProgress | backend/server.py:352-356 | a new progress row enters only its own user's rows and sums |
| Tables.AppendResult | backend/server.py:353 | a new result enters only its own user's results |
| Tables.UpdateProgressSums | backend/server.py:258-260 | replacing a row by one of the same user shifts that user's sums by the difference |
| Tables.RecordQuizScoreSums | backend/server.py:253-269 | a submission raises the submitter's quiz count by one and changes no study time and no other user's count |
| Tables.AddStudyTimeSums | backend/server.py:294-308 | logging study time raises that user's time by exactly the minutes and changes no quiz count |
| Tables.SubmitKeepsQuizCounts | backend/server.py:243-269 | after a result row and the progress update, each user's counted quizzes still equal their results |
| Tables.StudyKeepsQuizCounts | backend/server.py:294-308 | logging study time keeps each user's counted quizzes equal to their results |
| Tables.Analytics | backend/server.py:352-373 | one mastery entry per progress row of the user in table order, each copying that row; average 0 when no quiz was taken |
| Tables.SumScoresBounds | backend/server.py:358 | a sum of scores in [0, 1] lies between 0 and the number of scores |
| Tables.UserScoresInRange | backend/server.py:353 | every result returned for a user has a score in [0, 1] when all stored scores do |
| Tables.MeanScoreInRange | backend/server.py:358 | the mean of a non-empty list of scores in [0, 1] lies in [0, 1] |
| Tables.AnalyticsInRange | backend/server.py:356-366 | with stored scores and mastery in [0, 1], the average and every topic's mastery lie in [0, 1] |
| Tables.SumEntryQuizzesMirrors | backend/server.py:361-366 | the entries' quiz counts add up to the rows' quiz counts |
| Tables.AnalyticsQuizTotal | backend/server.py:357-366 | when quiz counts agree, the topics' quizzes_taken add up to total_quizzes_taken |
| Tables.UserProgressTopicsDistinct | backend/server.py:352 | with one row per (user, topic), a user's rows have distinct topics |
| Tables.AnalyticsTopicsDistinct | backend/server.py:361-366 | no topic appears twice in topic_mastery |
| Tables.AnalyticsAfterSubmit | backend/server.py:243-269 | a submission raises the submitter's total_quizzes_taken by one and changes no one's study time or anyone else's quiz total |
| Tables.AnalyticsAfterStudy | backend/server.py:294-308 | logging study time raises that user's total by exactly the minutes and leaves quiz totals and averages unchanged |
| Server.Store.constructor | backend/database.py:117-119 | empty tables satisfy every store invariant |
| Server.Store.CreateUser | backend/server.py:84-94 | the user with the email is returned, created with the next id when new; only the users table changes and the invariants hold |
| Server.Store.GetUser | backend/server.py:96-101 | the user with the id when one exists, otherwise a 404 "User not found" |
| Server.Store.GenerateQuiz | backend/server.py:196-223 | a reply is stored as a new quiz with the next id, the extracted questions and the given difficulty or "medium"; a failed model call is a 500 and stores nothing |
| Server.Store.SubmitQuiz | backend/server.py:225-279 | an unknown quiz is a 404 and ungradable questions a 500, both with nothing stored; otherwise one result row is appended, the (user, topic) progress is upserted, the score/correct/total/percentage are returned and every invariant holds |
| Server.Store.UpdateProgress | backend/server.py:292-312 | the (user, topic) row gains the study time or is created with it, only the progress table changes, and the invariants hold |
| Server.Store.GenerateKnowledgeGraph | backend/server.py:315-340 | a reply is stored as a new graph with the next id for the document, holding what the builder returns; a failed model call is a 500 and stores nothing |
| Server.Store.GetKnowledgeGraph | backend/server.py:342-347 | the earliest graph saved for the document when one exists, otherwise a 404 "Knowledge graph not found" |
| Server.Store.GetUserAnalytics | backend/server.py:350-373 | on a valid store the average and every mastery lie in [0, 1], topics are distinct, and the topics' quiz counts add up to the total |

## Left out

- The language model calls (`ainvoke`), the prompt texts and the truncation of the content put into them: the reply is a parameter.
- `json.loads` and `nx.spring_layout`: both are parameters, so the positions are not computed and the `k` and `iterations` arguments play no part.
- `evaluate_answer`, `generate_concept_explanation` and `generate_mermaid_diagram`: they only forward a prompt to the model and return its text.
- backend/rag_system.py is not part of this model. Neither are document upload, `query_rag`, `create_conversation` and the conversation, message, document, quiz-list and progress-list routes. These routes only insert or list rows. `Document`, `Message` and `Conversation` are kept as row types only.
- Timestamps (`created_at`, `last_studied`, `completed_at`, …): they come from the clock and nothing reads them.
- Foreign keys and `VARCHAR` lengths: whether they are enforced depends on the database engine in `DATABASE_URL`.
- Concurrency: two requests that interleave between the progress lookup and its insert could create two rows for one (user, topic). Each handler is modelled as one atomic step.
- The order of `.first()` and `.all()` without `ORDER BY`: it is modelled as insertion order.
- Python's `True == 1` and `1 == 1.0` equalities, and dict key order: JSON values are compared structurally.
- Floating point: scores and mastery are exact reals, and the rounding of `float` division is not modelled.
- Integer widths: ids, counts and study time are unbounded integers.
