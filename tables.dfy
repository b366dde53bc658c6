/**
 * The store's tables as values: the queries the route handlers issue, the
 * row updates they make, the invariants those updates keep, and the
 * analytics aggregation. The handlers themselves are in module Server.
 */
module Tables {
  import opened Wrappers
  import opened JsonValues
  import opened Database

  // ---------------------------------------------------------------------------
  // Queries

  /**
   * `query(T).filter(pred).first()`: the earliest row satisfying `pred`, if
   * any. Rows are kept in insertion order.
   */
  function FirstWhere<T>(rows: seq<T>, pred: T -> bool): (r: Option<nat>)
    ensures r.Some? ==> r.value < |rows| && pred(rows[r.value]) && forall k :: 0 <= k < r.value ==> !pred(rows[k])
    ensures r.None? ==> forall k :: 0 <= k < |rows| ==> !pred(rows[k])
  {
    if |rows| == 0 then None
    else if pred(rows[0]) then Some(0)
    else match FirstWhere(rows[1..], pred) {
      case None => None
      case Some(i) => Some(i + 1)
    }
  }

  function UserByEmail(users: seq<User>, email: string): Option<nat> {
    FirstWhere(users, (u: User) => u.email == email)
  }

  function UserById(users: seq<User>, id: int): Option<nat> {
    FirstWhere(users, (u: User) => u.id == id)
  }

  function QuizById(quizzes: seq<Quiz>, id: int): Option<nat> {
    FirstWhere(quizzes, (q: Quiz) => q.id == id)
  }

  function ProgressFor(progress: seq<Progress>, userId: int, topic: string): Option<nat> {
    FirstWhere(progress, (p: Progress) => p.userId == userId && p.topic == topic)
  }

  function GraphForDocument(graphs: seq<KnowledgeGraph>, documentId: int): Option<nat> {
    FirstWhere(graphs, (g: KnowledgeGraph) => g.documentId == documentId)
  }

  /** With sequential ids, the user with id `id` exists exactly when 1 <= id <= |users|, at index id - 1. */
  lemma UserByIdFound(users: seq<User>, id: int)
    requires UserIdsSequential(users)
    ensures UserById(users, id).Some? <==> 1 <= id <= |users|
    ensures UserById(users, id).Some? ==> UserById(users, id).value == id - 1
  {
    if 1 <= id <= |users| {
      assert users[id - 1].id == id;
    }
  }

  // ---------------------------------------------------------------------------
  // Users

  /**
   * `create_user`: the user already registered under `email`, or a new row
   * with the next id; the new user list comes first.
   */
  function CreateUserRows(users: seq<User>, name: string, email: string): (r: (seq<User>, User))
    ensures r.1.email == email
    ensures UserByEmail(r.0, email).Some? && r.0[UserByEmail(r.0, email).value] == r.1
    ensures UserByEmail(users, email).Some? ==> r.0 == users
    ensures UserByEmail(users, email).None? ==> r.0 == users + [r.1] && r.1.name == name && r.1.id == |users| + 1
  {
    match UserByEmail(users, email)
    case Some(i) => (users, users[i])
    case None =>
      var user := User(|users| + 1, name, email);
      assert (users + [user])[|users|] == user;
      (users + [user], user)
  }

  /**
   * Creating a user keeps emails unique and ids sequential, returns a user
   * with the requested email, and adds a row exactly when the email was new.
   */
  lemma CreateUserKeepsInvariants(users: seq<User>, name: string, email: string)
    requires EmailsUnique(users) && UserIdsSequential(users)
    ensures var (after, user) := CreateUserRows(users, name, email);
      && EmailsUnique(after) && UserIdsSequential(after)
      && user.email == email && user in after
      && (UserByEmail(users, email).Some? ==> after == users)
      && (UserByEmail(users, email).None? ==> after == users + [user] && user.name == name)
  {
  }

  /**
   * A second `create_user` with the same email (and any name) changes nothing
   * and returns the user the first call returned.
   */
  lemma CreateUserIdempotent(users: seq<User>, name1: string, name2: string, email: string)
    ensures var (after1, user1) := CreateUserRows(users, name1, email);
      var (after2, user2) := CreateUserRows(after1, name2, email);
      after2 == after1 && user2 == user1
  {
    var (after1, user1) := CreateUserRows(users, name1, email);
    match UserByEmail(users, email)
    case Some(i) =>
    case None =>
      assert after1[|users|].email == email;
      assert UserByEmail(after1, email) == Some(|users|);
  }

  // ---------------------------------------------------------------------------
  // Progress rows

  /** At most one progress row per (user, topic). */
  predicate OneRowPerTopic(progress: seq<Progress>) {
    forall i, j :: 0 <= i < j < |progress| ==>
      !(progress[i].userId == progress[j].userId && progress[i].topic == progress[j].topic)
  }

  predicate MasteryInRange(progress: seq<Progress>) {
    forall i :: 0 <= i < |progress| ==> 0.0 <= progress[i].masteryScore <= 1.0
  }

  predicate ScoresInRange(results: seq<QuizResult>) {
    forall i :: 0 <= i < |results| ==> 0.0 <= results[i].score <= 1.0
  }

  /**
   * The progress update of `submit_quiz`: the (user, topic)
   * row takes one more quiz and averages its mastery with the new score, or
   * a row is created with the score as its mastery and one quiz taken.
   */
  function RecordQuizScore(progress: seq<Progress>, userId: int, topic: string, score: real): (after: seq<Progress>)
    ensures |after| == |progress| + (if ProgressFor(progress, userId, topic).Some? then 0 else 1)
    ensures forall k :: 0 <= k < |progress| && !(progress[k].userId == userId && progress[k].topic == topic) ==>
      after[k] == progress[k]
  {
    match ProgressFor(progress, userId, topic)
    case Some(i) =>
      var p := progress[i];
      progress[i := p.(quizzesTaken := p.quizzesTaken + 1, masteryScore := (p.masteryScore + score) / 2.0)]
    case None =>
      progress + [DefaultProgress(|progress| + 1, userId, topic).(masteryScore := score, quizzesTaken := 1)]
  }

  /**
   * `update_progress`: the (user, topic) row gains `minutes`
   * of study time, or a row is created with that study time; the row is
   * returned beside the new table.
   */
  function AddStudyTime(progress: seq<Progress>, userId: int, topic: string, minutes: int): (r: (seq<Progress>, Progress))
    ensures |r.0| == |progress| + (if ProgressFor(progress, userId, topic).Some? then 0 else 1)
    ensures forall k :: 0 <= k < |progress| && !(progress[k].userId == userId && progress[k].topic == topic) ==>
      r.0[k] == progress[k]
    ensures r.1.userId == userId && r.1.topic == topic
  {
    match ProgressFor(progress, userId, topic)
    case Some(i) =>
      var p := progress[i].(studyTimeMinutes := progress[i].studyTimeMinutes + minutes);
      (progress[i := p], p)
    case None =>
      var p := DefaultProgress(|progress| + 1, userId, topic).(studyTimeMinutes := minutes);
      (progress + [p], p)
  }

  /**
   * After a quiz on `topic`, the (user, topic) row that existed has taken
   * exactly one more quiz, its mastery is the mean of the old mastery and
   * the score, and its study time is kept; without such a row, exactly one
   * row is appended with mastery = score, one quiz and no study time (the
   * column default). Every other row is unchanged.
   */
  lemma RecordQuizScoreRow(progress: seq<Progress>, userId: int, topic: string, score: real)
    ensures var after := RecordQuizScore(progress, userId, topic, score);
      match ProgressFor(progress, userId, topic)
      case Some(i) =>
        && |after| == |progress|
        && after[i].id == progress[i].id && after[i].userId == userId && after[i].topic == topic
        && after[i].quizzesTaken == progress[i].quizzesTaken + 1
        && after[i].masteryScore == (progress[i].masteryScore + score) / 2.0
        && after[i].studyTimeMinutes == progress[i].studyTimeMinutes
        && forall k :: 0 <= k < |progress| && k != i ==> after[k] == progress[k]
      case None =>
        && |after| == |progress| + 1 && after[..|progress|] == progress
        && after[|progress|] == Progress(|progress| + 1, userId, topic, score, 0, 1)
  {
  }

  /**
   * After `update_progress`, the existing (user, topic) row has `minutes`
   * more study time and nothing else changed; without one, exactly one row is
   * appended with that study time, mastery 0 and no quizzes (the column
   * defaults). The returned row is the table's (user, topic) row.
   */
  lemma AddStudyTimeRow(progress: seq<Progress>, userId: int, topic: string, minutes: int)
    ensures var (after, row) := AddStudyTime(progress, userId, topic, minutes);
      && ProgressFor(after, userId, topic).Some? && after[ProgressFor(after, userId, topic).value] == row
      && match ProgressFor(progress, userId, topic)
         case Some(i) =>
           && |after| == |progress|
           && row == progress[i].(studyTimeMinutes := progress[i].studyTimeMinutes + minutes)
           && forall k :: 0 <= k < |progress| && k != i ==> after[k] == progress[k]
         case None =>
           && after == progress + [row]
           && row == Progress(|progress| + 1, userId, topic, 0.0, minutes, 0)
  {
    var (after, row) := AddStudyTime(progress, userId, topic, minutes);
    match ProgressFor(progress, userId, topic)
    case Some(i) =>
      assert after[i] == row;
      assert forall k :: 0 <= k < i ==> after[k] == progress[k];
    case None =>
      assert after[|progress|] == row;
      assert ProgressFor(after, userId, topic) == Some(|progress|);
  }

  /** An update of the (user, topic) row, or an appended row for a new (user, topic), keeps the key unique. */
  lemma UpsertKeepsOneRowPerTopic(progress: seq<Progress>, userId: int, topic: string, after: seq<Progress>)
    requires OneRowPerTopic(progress)
    requires match ProgressFor(progress, userId, topic)
      case Some(i) =>
        && |after| == |progress|
        && after[i].userId == userId && after[i].topic == topic
        && forall k :: 0 <= k < |progress| && k != i ==> after[k] == progress[k]
      case None =>
        && |after| == |progress| + 1 && after[..|progress|] == progress
        && after[|progress|].userId == userId && after[|progress|].topic == topic
    ensures OneRowPerTopic(after)
  {
    match ProgressFor(progress, userId, topic)
    case Some(i) =>
      forall a, b | 0 <= a < b < |after|
        ensures !(after[a].userId == after[b].userId && after[a].topic == after[b].topic)
      {
        if a != i && b != i {
          assert after[a] == progress[a] && after[b] == progress[b];
        } else if a == i {
          assert after[b] == progress[b];
        } else {
          assert after[a] == progress[a];
        }
      }
    case None =>
      forall a, b | 0 <= a < b < |after|
        ensures !(after[a].userId == after[b].userId && after[a].topic == after[b].topic)
      {
        assert after[a] == progress[a];
        if b < |progress| {
          assert after[b] == progress[b];
        }
      }
  }

  /** Recording a score in [0, 1] keeps one row per (user, topic) and every mastery in [0, 1]. */
  lemma RecordQuizScoreKeepsInvariants(progress: seq<Progress>, userId: int, topic: string, score: real)
    requires OneRowPerTopic(progress) && MasteryInRange(progress)
    requires 0.0 <= score <= 1.0
    ensures var after := RecordQuizScore(progress, userId, topic, score);
      OneRowPerTopic(after) && MasteryInRange(after) && ProgressFor(after, userId, topic).Some?
  {
    RecordQuizScoreRow(progress, userId, topic, score);
    var after := RecordQuizScore(progress, userId, topic, score);
    UpsertKeepsOneRowPerTopic(progress, userId, topic, after);
    match ProgressFor(progress, userId, topic)
    case Some(i) =>
      assert after[i].userId == userId && after[i].topic == topic;
    case None =>
      assert after[|progress|].userId == userId && after[|progress|].topic == topic;
  }

  /** Adding study time keeps one row per (user, topic) and leaves every mastery as it was. */
  lemma AddStudyTimeKeepsInvariants(progress: seq<Progress>, userId: int, topic: string, minutes: int)
    requires OneRowPerTopic(progress) && MasteryInRange(progress)
    ensures var (after, _) := AddStudyTime(progress, userId, topic, minutes);
      OneRowPerTopic(after) && MasteryInRange(after)
  {
    AddStudyTimeRow(progress, userId, topic, minutes);
    var (after, row) := AddStudyTime(progress, userId, topic, minutes);
    UpsertKeepsOneRowPerTopic(progress, userId, topic, after);
  }

  // ---------------------------------------------------------------------------
  // Per-user rows and their sums

  /** `query(Progress).filter(Progress.user_id == userId).all()`, in table order. */
  function UserProgress(progress: seq<Progress>, userId: int): (rows: seq<Progress>)
    ensures |rows| <= |progress|
    ensures forall p :: p in rows ==> p in progress && p.userId == userId
    ensures forall k :: 0 <= k < |progress| && progress[k].userId == userId ==> progress[k] in rows
  {
    if |progress| == 0 then []
    else
      var init, last := progress[..|progress| - 1], progress[|progress| - 1];
      assert forall k :: 0 <= k < |init| ==> init[k] == progress[k];
      UserProgress(init, userId) + (if last.userId == userId then [last] else [])
  }

  /** `query(QuizResult).filter(QuizResult.user_id == userId).all()`, in table order. */
  function UserResults(results: seq<QuizResult>, userId: int): (rows: seq<QuizResult>)
    ensures |rows| <= |results|
    ensures forall r :: r in rows ==> r in results && r.userId == userId
    ensures forall k :: 0 <= k < |results| && results[k].userId == userId ==> results[k] in rows
  {
    if |results| == 0 then []
    else
      var init, last := results[..|results| - 1], results[|results| - 1];
      assert forall k :: 0 <= k < |init| ==> init[k] == results[k];
      UserResults(init, userId) + (if last.userId == userId then [last] else [])
  }

  /** The indices of the rows `pick` selects, in table order. */
  ghost function Positions<T>(rows: seq<T>, pick: T -> bool): seq<nat> {
    if |rows| == 0 then []
    else Positions(rows[..|rows| - 1], pick) + (if pick(rows[|rows| - 1]) then [|rows| - 1] else [])
  }

  /**
   * `picked` lists the rows of `rows` that `pick` selects, each once and in
   * table order: `pos` holds their indices, strictly increasing, and holds
   * exactly the indices of selected rows.
   */
  ghost predicate SelectsInOrder<T>(rows: seq<T>, pick: T -> bool, picked: seq<T>, pos: seq<nat>) {
    && |pos| == |picked|
    && (forall i :: 0 <= i < |pos| ==> pos[i] < |rows| && rows[pos[i]] == picked[i])
    && (forall i, j :: 0 <= i < j < |pos| ==> pos[i] < pos[j])
    && (forall k :: 0 <= k < |rows| ==> (k in pos <==> pick(rows[k])))
  }

  /** Appending a row extends a selection in order, with the new index when the row is selected. */
  lemma SelectsInOrderAppend<T>(rows: seq<T>, pick: T -> bool, picked: seq<T>, pos: seq<nat>, x: T)
    requires SelectsInOrder(rows, pick, picked, pos)
    ensures SelectsInOrder(rows + [x], pick, picked + (if pick(x) then [x] else []),
                           pos + (if pick(x) then [|rows|] else []))
  {
    var rows', picked', pos' := rows + [x], picked + (if pick(x) then [x] else []), pos + (if pick(x) then [|rows|] else []);
    forall i | 0 <= i < |pos'| ensures pos'[i] < |rows'| && rows'[pos'[i]] == picked'[i] {
      if i < |pos| {
        assert pos'[i] == pos[i] && picked'[i] == picked[i];
      }
    }
    forall k | 0 <= k < |rows'| ensures (k in pos' <==> pick(rows'[k])) {
      if k < |rows| {
        assert rows'[k] == rows[k];
        assert k in pos' <==> k in pos;
      } else {
        assert |rows| !in pos;
      }
    }
  }

  /** `UserProgress` returns all of the user's progress rows and no others, in table order. */
  lemma {:induction false} UserProgressInOrder(progress: seq<Progress>, userId: int)
    ensures var pick := (p: Progress) => p.userId == userId;
      SelectsInOrder(progress, pick, UserProgress(progress, userId), Positions(progress, pick))
  {
    var pick := (p: Progress) => p.userId == userId;
    if |progress| > 0 {
      var init, last := progress[..|progress| - 1], progress[|progress| - 1];
      UserProgressInOrder(init, userId);
      SelectsInOrderAppend(init, pick, UserProgress(init, userId), Positions(init, pick), last);
      assert init + [last] == progress;
    }
  }

  /** `UserResults` returns all of the user's quiz results and no others, in table order. */
  lemma {:induction false} UserResultsInOrder(results: seq<QuizResult>, userId: int)
    ensures var pick := (r: QuizResult) => r.userId == userId;
      SelectsInOrder(results, pick, UserResults(results, userId), Positions(results, pick))
  {
    var pick := (r: QuizResult) => r.userId == userId;
    if |results| > 0 {
      var init, last := results[..|results| - 1], results[|results| - 1];
      UserResultsInOrder(init, userId);
      SelectsInOrderAppend(init, pick, UserResults(init, userId), Positions(init, pick), last);
      assert init + [last] == results;
    }
  }

  function SumStudyTime(rows: seq<Progress>): int {
    if |rows| == 0 then 0 else SumStudyTime(rows[..|rows| - 1]) + rows[|rows| - 1].studyTimeMinutes
  }

  function SumQuizzesTaken(rows: seq<Progress>): int {
    if |rows| == 0 then 0 else SumQuizzesTaken(rows[..|rows| - 1]) + rows[|rows| - 1].quizzesTaken
  }

  function SumScores(rows: seq<QuizResult>): real {
    if |rows| == 0 then 0.0 else SumScores(rows[..|rows| - 1]) + rows[|rows| - 1].score
  }

  /** Per user, the quizzes counted on the progress rows are the user's quiz results. */
  ghost predicate QuizCountsAgree(progress: seq<Progress>, results: seq<QuizResult>) {
    forall u :: SumQuizzesTaken(UserProgress(progress, u)) == |UserResults(results, u)|
  }

  lemma SumsAppend(rows: seq<Progress>, x: Progress)
    ensures SumStudyTime(rows + [x]) == SumStudyTime(rows) + x.studyTimeMinutes
    ensures SumQuizzesTaken(rows + [x]) == SumQuizzesTaken(rows) + x.quizzesTaken
  {
    assert (rows + [x])[..|rows|] == rows;
  }

  lemma AppendProgress(progress: seq<Progress>, x: Progress, u: int)
    ensures UserProgress(progress + [x], u) == UserProgress(progress, u) + (if x.userId == u then [x] else [])
    ensures SumStudyTime(UserProgress(progress + [x], u)) == SumStudyTime(UserProgress(progress, u)) + (if x.userId == u then x.studyTimeMinutes else 0)
    ensures SumQuizzesTaken(UserProgress(progress + [x], u)) == SumQuizzesTaken(UserProgress(progress, u)) + (if x.userId == u then x.quizzesTaken else 0)
  {
    assert (progress + [x])[..|progress|] == progress;
    var rows := UserProgress(progress, u);
    if x.userId == u {
      SumsAppend(rows, x);
    } else {
      assert rows + [] == rows;
    }
  }

  lemma AppendResult(results: seq<QuizResult>, x: QuizResult, u: int)
    ensures UserResults(results + [x], u) == UserResults(results, u) + (if x.userId == u then [x] else [])
  {
    assert (results + [x])[..|results|] == results;
  }

  /** Replacing a row by one of the same user shifts that user's sums by the difference. */
  lemma {:induction false} UpdateProgressSums(progress: seq<Progress>, i: nat, x: Progress, u: int)
    requires i < |progress| && x.userId == progress[i].userId
    ensures SumStudyTime(UserProgress(progress[i := x], u))
         == SumStudyTime(UserProgress(progress, u)) + (if x.userId == u then x.studyTimeMinutes - progress[i].studyTimeMinutes else 0)
    ensures SumQuizzesTaken(UserProgress(progress[i := x], u))
         == SumQuizzesTaken(UserProgress(progress, u)) + (if x.userId == u then x.quizzesTaken - progress[i].quizzesTaken else 0)
  {
    var n := |progress|;
    var init := progress[..n - 1];
    var updated := progress[i := x];
    assert progress == init + [progress[n - 1]];
    if i == n - 1 {
      assert updated == init + [x];
      AppendProgress(init, x, u);
      AppendProgress(init, progress[n - 1], u);
    } else {
      assert updated == init[i := x] + [progress[n - 1]];
      UpdateProgressSums(init, i, x, u);
      AppendProgress(init[i := x], progress[n - 1], u);
      AppendProgress(init, progress[n - 1], u);
    }
  }

  /**
   * A quiz taken by `userId` raises that user's quiz count on the progress
   * rows by exactly one and leaves every user's study time, and everyone
   * else's quiz count, as they were.
   */
  lemma RecordQuizScoreSums(progress: seq<Progress>, userId: int, topic: string, score: real, u: int)
    ensures var after := UserProgress(RecordQuizScore(progress, userId, topic, score), u);
      && SumQuizzesTaken(after) == SumQuizzesTaken(UserProgress(progress, u)) + (if u == userId then 1 else 0)
      && SumStudyTime(after) == SumStudyTime(UserProgress(progress, u))
  {
    var found := ProgressFor(progress, userId, topic);
    if found.Some? {
      var i := found.value;
      var p := progress[i];
      var x := p.(quizzesTaken := p.quizzesTaken + 1, masteryScore := (p.masteryScore + score) / 2.0);
      assert RecordQuizScore(progress, userId, topic, score) == progress[i := x];
      UpdateProgressSums(progress, i, x, u);
    } else {
      var x := DefaultProgress(|progress| + 1, userId, topic).(masteryScore := score, quizzesTaken := 1);
      assert RecordQuizScore(progress, userId, topic, score) == progress + [x];
      AppendProgress(progress, x, u);
    }
  }

  /**
   * Study time logged by `userId` raises that user's total study time by
   * exactly `minutes` and changes no quiz count and no one else's time.
   */
  lemma AddStudyTimeSums(progress: seq<Progress>, userId: int, topic: string, minutes: int, u: int)
    ensures var after := UserProgress(AddStudyTime(progress, userId, topic, minutes).0, u);
      && SumStudyTime(after) == SumStudyTime(UserProgress(progress, u)) + (if u == userId then minutes else 0)
      && SumQuizzesTaken(after) == SumQuizzesTaken(UserProgress(progress, u))
  {
    var found := ProgressFor(progress, userId, topic);
    if found.Some? {
      var i := found.value;
      var x := progress[i].(studyTimeMinutes := progress[i].studyTimeMinutes + minutes);
      assert AddStudyTime(progress, userId, topic, minutes).0 == progress[i := x];
      UpdateProgressSums(progress, i, x, u);
    } else {
      var x := DefaultProgress(|progress| + 1, userId, topic).(studyTimeMinutes := minutes);
      assert AddStudyTime(progress, userId, topic, minutes).0 == progress + [x];
      AppendProgress(progress, x, u);
    }
  }

  /** A submission (one result row plus the progress update, for the same user) keeps the quiz counts in agreement. */
  lemma SubmitKeepsQuizCounts(progress: seq<Progress>, results: seq<QuizResult>, result: QuizResult, topic: string, score: real)
    requires QuizCountsAgree(progress, results)
    ensures QuizCountsAgree(RecordQuizScore(progress, result.userId, topic, score), results + [result])
  {
    forall u
      ensures SumQuizzesTaken(UserProgress(RecordQuizScore(progress, result.userId, topic, score), u))
           == |UserResults(results + [result], u)|
    {
      RecordQuizScoreSums(progress, result.userId, topic, score, u);
      AppendResult(results, result, u);
    }
  }

  /** Logging study time keeps the quiz counts in agreement. */
  lemma StudyKeepsQuizCounts(progress: seq<Progress>, results: seq<QuizResult>, userId: int, topic: string, minutes: int)
    requires QuizCountsAgree(progress, results)
    ensures QuizCountsAgree(AddStudyTime(progress, userId, topic, minutes).0, results)
  {
    forall u
      ensures SumQuizzesTaken(UserProgress(AddStudyTime(progress, userId, topic, minutes).0, u)) == |UserResults(results, u)|
    {
      AddStudyTimeSums(progress, userId, topic, minutes, u);
    }
  }

  // ---------------------------------------------------------------------------
  // Analytics

  datatype TopicMastery = TopicMastery(topic: string, masteryScore: real, quizzesTaken: nat, studyTime: int)

  datatype AnalyticsSnapshot = AnalyticsSnapshot(
    totalStudyTimeMinutes: int,
    totalQuizzesTaken: nat,
    averageScore: real,
    topicMastery: seq<TopicMastery>)

  function MasteryEntry(p: Progress): TopicMastery {
    TopicMastery(p.topic, p.masteryScore, p.quizzesTaken, p.studyTimeMinutes)
  }

  /**
   * `get_user_analytics`: the user's total study time, their
   * number of quiz results and the mean of their scores (0 with none), and
   * one mastery entry per progress row of theirs, in table order.
   */
  function Analytics(progress: seq<Progress>, results: seq<QuizResult>, userId: int): (a: AnalyticsSnapshot)
    ensures |a.topicMastery| == |UserProgress(progress, userId)|
    ensures forall i :: 0 <= i < |a.topicMastery| ==> a.topicMastery[i] == MasteryEntry(UserProgress(progress, userId)[i])
    ensures a.totalQuizzesTaken == 0 ==> a.averageScore == 0.0
  {
    var mine := UserProgress(progress, userId);
    var taken := UserResults(results, userId);
    AnalyticsSnapshot(
      SumStudyTime(mine),
      |taken|,
      if |taken| > 0 then SumScores(taken) / |taken| as real else 0.0,
      seq(|mine|, i requires 0 <= i < |mine| => MasteryEntry(mine[i])))
  }

  function SumEntryQuizzes(entries: seq<TopicMastery>): int {
    if |entries| == 0 then 0 else SumEntryQuizzes(entries[..|entries| - 1]) + entries[|entries| - 1].quizzesTaken
  }

  lemma {:induction false} SumScoresBounds(rows: seq<QuizResult>)
    requires forall r :: r in rows ==> 0.0 <= r.score <= 1.0
    ensures 0.0 <= SumScores(rows) <= |rows| as real
  {
    if |rows| > 0 {
      var init := rows[..|rows| - 1];
      assert forall r :: r in init ==> r in rows;
      SumScoresBounds(init);
      assert rows[|rows| - 1] in rows;
    }
  }

  /** Each of a user's results has a stored score, so it lies in [0, 1]. */
  lemma UserScoresInRange(results: seq<QuizResult>, userId: int)
    requires ScoresInRange(results)
    ensures forall r :: r in UserResults(results, userId) ==> 0.0 <= r.score <= 1.0
  {
    forall r | r in UserResults(results, userId) ensures 0.0 <= r.score <= 1.0 {
      var k :| 0 <= k < |results| && results[k] == r;
    }
  }

  /** The mean of scores in [0, 1] lies in [0, 1]. */
  lemma MeanScoreInRange(taken: seq<QuizResult>)
    requires |taken| > 0
    requires forall r :: r in taken ==> 0.0 <= r.score <= 1.0
    ensures 0.0 <= SumScores(taken) / |taken| as real <= 1.0
  {
    SumScoresBounds(taken);
    var n := |taken| as real;
    assert SumScores(taken) / n * n == SumScores(taken);
  }

  /** With every stored score and mastery in [0, 1], so are the average score and every topic's mastery. */
  lemma AnalyticsInRange(progress: seq<Progress>, results: seq<QuizResult>, userId: int)
    requires MasteryInRange(progress) && ScoresInRange(results)
    ensures var a := Analytics(progress, results, userId);
      && 0.0 <= a.averageScore <= 1.0
      && forall i :: 0 <= i < |a.topicMastery| ==> 0.0 <= a.topicMastery[i].masteryScore <= 1.0
  {
    var mine := UserProgress(progress, userId);
    var taken := UserResults(results, userId);
    UserScoresInRange(results, userId);
    if |taken| > 0 {
      MeanScoreInRange(taken);
    }
    forall i | 0 <= i < |mine| ensures 0.0 <= mine[i].masteryScore <= 1.0 {
      assert mine[i] in mine;
      var k :| 0 <= k < |progress| && progress[k] == mine[i];
    }
  }

  lemma {:induction false} SumEntryQuizzesMirrors(rows: seq<Progress>, entries: seq<TopicMastery>)
    requires |entries| == |rows|
    requires forall i :: 0 <= i < |rows| ==> entries[i] == MasteryEntry(rows[i])
    ensures SumEntryQuizzes(entries) == SumQuizzesTaken(rows)
  {
    if |rows| > 0 {
      SumEntryQuizzesMirrors(rows[..|rows| - 1], entries[..|entries| - 1]);
    }
  }

  /** When the quiz counts agree, the topic entries' quizzes_taken add up to total_quizzes_taken. */
  lemma AnalyticsQuizTotal(progress: seq<Progress>, results: seq<QuizResult>, userId: int)
    requires QuizCountsAgree(progress, results)
    ensures var a := Analytics(progress, results, userId);
      SumEntryQuizzes(a.topicMastery) == a.totalQuizzesTaken
  {
    var a := Analytics(progress, results, userId);
    SumEntryQuizzesMirrors(UserProgress(progress, userId), a.topicMastery);
  }

  predicate TopicsDistinct(rows: seq<Progress>) {
    forall i, j :: 0 <= i < j < |rows| ==> rows[i].topic != rows[j].topic
  }

  /** With one row per (user, topic), no topic appears twice among a user's rows. */
  lemma {:induction false} UserProgressTopicsDistinct(progress: seq<Progress>, userId: int)
    requires OneRowPerTopic(progress)
    ensures TopicsDistinct(UserProgress(progress, userId))
  {
    if |progress| > 0 {
      var n := |progress|;
      var init := progress[..n - 1];
      var last := progress[n - 1];
      UserProgressTopicsDistinct(init, userId);
      var before := UserProgress(init, userId);
      var rows := UserProgress(progress, userId);
      assert rows == before + (if last.userId == userId then [last] else []);
      forall i, j | 0 <= i < j < |rows| ensures rows[i].topic != rows[j].topic {
        if j < |before| {
          assert rows[i] == before[i] && rows[j] == before[j];
          assert before[i].topic != before[j].topic;
        } else {
          assert rows[j] == last && last.userId == userId;
          assert rows[i] == before[i] && before[i] in before;
          var k :| 0 <= k < |init| && init[k] == rows[i];
          assert progress[k] == rows[i] && rows[i].userId == userId;
          assert !(progress[k].userId == progress[n - 1].userId && progress[k].topic == progress[n - 1].topic);
        }
      }
    }
  }

  lemma AnalyticsTopicsDistinct(progress: seq<Progress>, results: seq<QuizResult>, userId: int)
    requires OneRowPerTopic(progress)
    ensures var a := Analytics(progress, results, userId);
      forall i, j :: 0 <= i < j < |a.topicMastery| ==> a.topicMastery[i].topic != a.topicMastery[j].topic
  {
    UserProgressTopicsDistinct(progress, userId);
    var a := Analytics(progress, results, userId);
    var rows := UserProgress(progress, userId);
    forall i | 0 <= i < |a.topicMastery| ensures a.topicMastery[i].topic == rows[i].topic {
      assert a.topicMastery[i] == MasteryEntry(rows[i]);
    }
  }

  /**
   * After user `userId` submits a quiz, their total_quizzes_taken is one
   * higher and their study time unchanged; other users' figures stay put.
   */
  lemma AnalyticsAfterSubmit(progress: seq<Progress>, results: seq<QuizResult>, result: QuizResult, topic: string, score: real, u: int)
    ensures var before := Analytics(progress, results, u);
      var after := Analytics(RecordQuizScore(progress, result.userId, topic, score), results + [result], u);
      && after.totalQuizzesTaken == before.totalQuizzesTaken + (if u == result.userId then 1 else 0)
      && after.totalStudyTimeMinutes == before.totalStudyTimeMinutes
  {
    RecordQuizScoreSums(progress, result.userId, topic, score, u);
    AppendResult(results, result, u);
  }

  /**
   * After `update_progress` for `userId`, their total study time is exactly
   * `minutes` higher; quiz totals and averages do not move, and other users'
   * figures stay put.
   */
  lemma AnalyticsAfterStudy(progress: seq<Progress>, results: seq<QuizResult>, userId: int, topic: string, minutes: int, u: int)
    ensures var before := Analytics(progress, results, u);
      var after := Analytics(AddStudyTime(progress, userId, topic, minutes).0, results, u);
      && after.totalStudyTimeMinutes == before.totalStudyTimeMinutes + (if u == userId then minutes else 0)
      && after.totalQuizzesTaken == before.totalQuizzesTaken
      && after.averageScore == before.averageScore
  {
    AddStudyTimeSums(progress, userId, topic, minutes, u);
  }
}
