/**
 * The rows of the backend's tables, with the column defaults and the
 * constraints the schema declares. Timestamps (`created_at`, `last_studied`,
 * ...) are not modelled.
 */
module Database {
  import opened JsonValues

  /** A row of `users`; `email` is non-null and unique. */
  datatype User = User(id: nat, name: string, email: string)

  /** A row of `documents`: an uploaded file and the summary generated for it. */
  datatype Document = Document(id: nat, userId: int, filename: string, contentPreview: string, fileType: string)

  /** A row of `messages`; `role` is one of "user", "assistant" or "system". */
  datatype Message = Message(id: nat, conversationId: int, role: string, content: string, sources: Json)

  /** A row of `conversations`, kept as a row type only. */
  datatype Conversation = Conversation(id: nat, userId: int, sessionId: string, mode: string)

  /** A row of `quizzes`; `questions` holds whatever JSON the quiz generator produced. */
  datatype Quiz = Quiz(id: nat, userId: int, topic: string, questions: Json, difficulty: string)

  /** The `difficulty` a quiz gets when none is given. */
  const DefaultDifficulty: string := "medium"

  /** The difficulty levels the schema documents, and the keys of the quiz generator's instructions. */
  predicate DocumentedDifficulty(d: string) {
    d == "easy" || d == "medium" || d == "hard"
  }

  /** A row of `quiz_results`; score, total_questions and answers are non-null. */
  datatype QuizResult = QuizResult(id: nat, quizId: int, userId: int, score: real, totalQuestions: nat, answers: map<string, Json>)

  /** A row of `progress`: one user's standing on one topic. */
  datatype Progress = Progress(id: nat, userId: int, topic: string, masteryScore: real, studyTimeMinutes: int, quizzesTaken: nat)

  /** A row of `knowledge_graphs`; `graph_data` is non-null and `document_id` names the document it was built for. */
  datatype KnowledgeGraph = KnowledgeGraph(id: nat, userId: int, documentId: int, graphData: Json)

  /** A progress row inserted with only its key columns given: the column defaults fill in the rest. */
  function DefaultProgress(id: nat, userId: int, topic: string): Progress {
    Progress(id, userId, topic, 0.0, 0, 0)
  }

  /** The unique index on `users.email`. */
  predicate EmailsUnique(users: seq<User>) {
    forall i, j :: 0 <= i < j < |users| ==> users[i].email != users[j].email
  }

  /** Auto-increment primary keys in a table no operation deletes from: the i-th row inserted has id i + 1. */
  predicate UserIdsSequential(users: seq<User>) {
    forall i :: 0 <= i < |users| ==> users[i].id == i + 1
  }

  predicate QuizIdsSequential(quizzes: seq<Quiz>) {
    forall i :: 0 <= i < |quizzes| ==> quizzes[i].id == i + 1
  }
}
