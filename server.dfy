/**
 * The route handlers of the backend over an in-memory store of its tables.
 * Every handler runs in one transaction: it either commits all its changes
 * or, when it raises, none. The language model's reply is a parameter (None
 * when the call raises), and so are the JSON parser and the graph layout.
 */
module Server {
  import opened Wrappers
  import opened JsonValues
  import opened Database
  import opened Tables
  import opened Grading
  import QuizGenerator
  import KnowledgeGraphBuilder

  /** The HTTP errors the handlers raise: 404 with its detail, or 500. */
  datatype Error = NotFound(detail: string) | ServerError

  datatype Result<T> = Ok(value: T) | Err(error: Error)

  /** The body `submit_quiz` returns. */
  datatype SubmitResponse = SubmitResponse(score: real, correct: nat, total: nat, percentage: real)

  class Store {
    var users: seq<User>
    var quizzes: seq<Quiz>
    var results: seq<QuizResult>
    var progress: seq<Progress>
    var graphs: seq<KnowledgeGraph>

    /**
     * The schema's constraints (unique emails, auto-increment ids) and the
     * invariants the handlers keep: one progress row per (user, topic),
     * scores and mastery in [0, 1], and per user as many quizzes counted on
     * the progress rows as there are quiz results.
     */
    ghost predicate Valid()
      reads this
    {
      && EmailsUnique(users) && UserIdsSequential(users)
      && QuizIdsSequential(quizzes)
      && ScoresInRange(results)
      && OneRowPerTopic(progress) && MasteryInRange(progress)
      && QuizCountsAgree(progress, results)
    }

    /** Freshly created tables. */
    constructor ()
      ensures Valid()
      ensures users == [] && quizzes == [] && results == [] && progress == [] && graphs == []
    {
      users, quizzes, results, progress, graphs := [], [], [], [], [];
    }

    /** `POST /users`: returns the user with this email, creating it if there is none. */
    method CreateUser(name: string, email: string) returns (user: User)
      requires Valid()
      modifies this
      ensures Valid()
      ensures (users, user) == CreateUserRows(old(users), name, email)
      ensures quizzes == old(quizzes) && results == old(results) && progress == old(progress) && graphs == old(graphs)
    {
      CreateUserKeepsInvariants(users, name, email);
      var existing := UserByEmail(users, email);
      if existing.Some? {
        return users[existing.value];
      }
      user := User(|users| + 1, name, email);
      users := users + [user];
    }

    /** `GET /users/{id}`. */
    method GetUser(id: int) returns (r: Result<User>)
      requires Valid()
      ensures r.Ok? <==> exists i :: 0 <= i < |users| && users[i].id == id
      ensures r.Ok? ==> r.value in users && r.value.id == id
      ensures r.Err? ==> r.error == NotFound("User not found")
    {
      var found := UserById(users, id);
      if found.None? {
        return Err(NotFound("User not found"));
      }
      r := Ok(users[found.value]);
    }

    /**
     * The storing step of `POST /quiz/generate`: the
     * questions made of the model's reply are saved as a new quiz, with the
     * requested difficulty or "medium". A failed model call saves nothing.
     */
    method GenerateQuiz(userId: int, topic: string, difficulty: Option<string>, reply: Option<string>,
                        parse: string -> Option<Json>)
      returns (r: Result<Quiz>)
      requires Valid()
      modifies this
      ensures Valid()
      ensures users == old(users) && results == old(results) && progress == old(progress) && graphs == old(graphs)
      ensures reply.None? ==> r == Err(ServerError) && quizzes == old(quizzes)
      ensures reply.Some? ==>
        && r == Ok(Quiz(|old(quizzes)| + 1, userId, topic,
                        QuizGenerator.ExtractQuestions(reply.value, parse), difficulty.GetOr(DefaultDifficulty)))
        && quizzes == old(quizzes) + [r.value]
    {
      if reply.None? {
        return Err(ServerError);
      }
      var questions := QuizGenerator.ExtractQuestions(reply.value, parse);
      var quiz := Quiz(|quizzes| + 1, userId, topic, questions, difficulty.GetOr(DefaultDifficulty));
      quizzes := quizzes + [quiz];
      r := Ok(quiz);
    }

    /**
     * `POST /quiz/submit`: grade the answers against the
     * stored quiz, save the result and update the (user, topic) progress.
     * An unknown quiz is a 404 and a quiz that cannot be graded a 500; both
     * leave every table as it was.
     */
    method SubmitQuiz(quizId: int, userId: int, answers: map<string, Json>) returns (r: Result<SubmitResponse>)
      requires Valid()
      modifies this
      ensures Valid()
      ensures users == old(users) && quizzes == old(quizzes) && graphs == old(graphs)
      ensures QuizById(old(quizzes), quizId).None? ==>
        r == Err(NotFound("Quiz not found")) && results == old(results) && progress == old(progress)
      ensures QuizById(old(quizzes), quizId).Some? ==>
        var quiz := old(quizzes)[QuizById(old(quizzes), quizId).value];
        match Graded(quiz.questions, answers)
        case None => r == Err(ServerError) && results == old(results) && progress == old(progress)
        case Some(g) =>
          var score := Score(g.correct, g.total);
          && r == Ok(SubmitResponse(score, g.correct, g.total, score * 100.0))
          && results == old(results) + [QuizResult(|old(results)| + 1, quiz.id, userId, score, g.total, answers)]
          && progress == RecordQuizScore(old(progress), userId, quiz.topic, score)
    {
      var found := QuizById(quizzes, quizId);
      if found.None? {
        return Err(NotFound("Quiz not found"));
      }
      var quiz := quizzes[found.value];
      var grade := GradeSubmission(quiz.questions, answers);
      if grade.None? {
        return Err(ServerError);
      }
      var correct, total := grade.value.correct, grade.value.total;
      var score := Score(correct, total);
      var result := QuizResult(|results| + 1, quiz.id, userId, score, total, answers);
      RecordQuizScoreKeepsInvariants(progress, userId, quiz.topic, score);
      SubmitKeepsQuizCounts(progress, results, result, quiz.topic, score);
      results := results + [result];
      progress := RecordQuizScore(progress, userId, quiz.topic, score);
      r := Ok(SubmitResponse(score, correct, total, score * 100.0));
    }

    /**
     * `POST /progress/update`: add study time to the
     * (user, topic) row, creating it if needed, and return the row.
     */
    method UpdateProgress(userId: int, topic: string, minutes: int) returns (row: Progress)
      requires Valid()
      modifies this
      ensures Valid()
      ensures (progress, row) == AddStudyTime(old(progress), userId, topic, minutes)
      ensures users == old(users) && quizzes == old(quizzes) && results == old(results) && graphs == old(graphs)
    {
      AddStudyTimeKeepsInvariants(progress, userId, topic, minutes);
      StudyKeepsQuizCounts(progress, results, userId, topic, minutes);
      var (after, updated) := AddStudyTime(progress, userId, topic, minutes);
      progress, row := after, updated;
    }

    /**
     * `POST /knowledge-graph/generate`: build a graph from
     * the model's reply and save it for the document. A failed model call
     * saves nothing.
     */
    method GenerateKnowledgeGraph(userId: int, documentId: int, topic: string, reply: Option<string>,
                                  parse: string -> Option<Json>, layout: (set<Json>, Json) -> (real, real))
      returns (r: Result<KnowledgeGraph>)
      requires Valid()
      modifies this
      ensures Valid()
      ensures users == old(users) && quizzes == old(quizzes) && results == old(results) && progress == old(progress)
      ensures reply.None? ==> r == Err(ServerError) && graphs == old(graphs)
      ensures reply.Some? ==>
        && r.Ok? && graphs == old(graphs) + [r.value]
        && r.value.id == |old(graphs)| + 1 && r.value.userId == userId && r.value.documentId == documentId
        && KnowledgeGraphBuilder.Built(reply.value, topic, parse, layout, r.value.graphData)
    {
      if reply.None? {
        return Err(ServerError);
      }
      var graphData := KnowledgeGraphBuilder.BuildGraph(reply.value, topic, parse, layout);
      var kg := KnowledgeGraph(|graphs| + 1, userId, documentId, graphData);
      graphs := graphs + [kg];
      r := Ok(kg);
    }

    /**
     * `GET /knowledge-graph/document/{id}`: the earliest graph
     * saved for the document, or a 404 when there is none.
     */
    method GetKnowledgeGraph(documentId: int) returns (r: Result<KnowledgeGraph>)
      ensures r.Ok? <==> exists i :: 0 <= i < |graphs| && graphs[i].documentId == documentId
      ensures r.Ok? ==> exists i :: && 0 <= i < |graphs| && graphs[i] == r.value && r.value.documentId == documentId
                                    && forall k :: 0 <= k < i ==> graphs[k].documentId != documentId
      ensures r.Err? ==> r.error == NotFound("Knowledge graph not found")
    {
      var found := GraphForDocument(graphs, documentId);
      if found.None? {
        return Err(NotFound("Knowledge graph not found"));
      }
      r := Ok(graphs[found.value]);
    }

    /**
     * `GET /analytics/user/{id}` on a valid store: the
     * average score lies in [0, 1], the topics are distinct, and the topics'
     * quiz counts add up to the number of quizzes taken.
     */
    function GetUserAnalytics(userId: int): (a: AnalyticsSnapshot)
      requires Valid()
      reads this
      ensures 0.0 <= a.averageScore <= 1.0
      ensures forall i :: 0 <= i < |a.topicMastery| ==> 0.0 <= a.topicMastery[i].masteryScore <= 1.0
      ensures forall i, j :: 0 <= i < j < |a.topicMastery| ==> a.topicMastery[i].topic != a.topicMastery[j].topic
      ensures SumEntryQuizzes(a.topicMastery) == a.totalQuizzesTaken
    {
      AnalyticsInRange(progress, results, userId);
      AnalyticsTopicsDistinct(progress, results, userId);
      AnalyticsQuizTotal(progress, results, userId);
      Analytics(progress, results, userId)
    }
  }
}
