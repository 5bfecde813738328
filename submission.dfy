/**
 * The decision made by the `POST /submit` handler, as a pure step over the
 * user table and the question table, and what a sequence of submissions does
 * to the users, the broadcast snapshots and the results.
 */
module Submission {
  import opened Wrappers
  import opened Questions

  type UserId = int

  /** A user row as the handler sees it; the password hash is never read here. */
  datatype User = User(username: string, score: int, answeredQuestions: seq<QuestionId>)

  /** One row of the `scoreUpdated` payload (its key is the user's id). */
  datatype Standing = Standing(username: string, score: int)

  type Snapshot = map<UserId, Standing>

  datatype SubmitResult =
    | NotFoundUser
    | AlreadyAnswered
    | NotFoundQuestion
    | Graded(isCorrect: bool)
      /** The update was committed but `io.emit` threw before any response: no socket was attached. */
    | EmitFailed

  /** The update `score: { increment: 1 }, answeredQuestions: { push: questionId }`. */
  function Credit(u: User, qid: QuestionId): (credited: User)
    ensures credited.username == u.username
    ensures credited.score == u.score + 1
    ensures |credited.answeredQuestions| == |u.answeredQuestions| + 1
    ensures u.answeredQuestions <= credited.answeredQuestions
    ensures credited.answeredQuestions[|u.answeredQuestions|] == qid
  {
    u.(score := u.score + 1, answeredQuestions := u.answeredQuestions + [qid])
  }

  /** `findMany` selecting id, username and score: every user's standing. */
  function Leaderboard(users: map<UserId, User>): (board: Snapshot)
    ensures board.Keys == users.Keys
    ensures forall id :: id in board ==>
              board[id].username == users[id].username && board[id].score == users[id].score
  {
    map id | id in users :: Standing(users[id].username, users[id].score)
  }

  /** What one submission returns, the user table afterwards, and the snapshot it emits. */
  datatype Effect = Effect(result: SubmitResult, users: map<UserId, User>, broadcast: Option<Snapshot>)

  /**
   * The handler's checks in their order: the user exists, the question is
   * not yet answered, the question exists, the answer is exactly right.
   */
  function Step(users: map<UserId, User>, questions: seq<Question>,
                uid: UserId, qid: QuestionId, answer: string): (e: Effect)
    ensures e.users.Keys == users.Keys
    ensures forall id :: id in users && id != uid ==> e.users[id] == users[id]
    ensures e.users != users || e.broadcast.Some? ==> e.result == Graded(true)
    ensures e.broadcast.Some? <==> e.result == Graded(true)
    ensures e.broadcast.Some? ==> e.broadcast.value == Leaderboard(e.users)
  {
    if uid !in users then Effect(NotFoundUser, users, None)
    else if qid in users[uid].answeredQuestions then Effect(AlreadyAnswered, users, None)
    else match FindQuestion(questions, qid)
      case None => Effect(NotFoundQuestion, users, None)
      case Some(q) =>
        if q.answer == answer then
          var users' := users[uid := Credit(users[uid], qid)];
          Effect(Graded(true), users', Some(Leaderboard(users')))
        else Effect(Graded(false), users, None)
  }

  /** A correct answer is exactly: known user, fresh question, stored, same string. */
  lemma StepScoresExactly(users: map<UserId, User>, questions: seq<Question>,
                          uid: UserId, qid: QuestionId, answer: string)
    ensures Step(users, questions, uid, qid, answer).result == Graded(true) <==>
              uid in users && qid !in users[uid].answeredQuestions &&
              FindQuestion(questions, qid).Some? && FindQuestion(questions, qid).value.answer == answer
    ensures Step(users, questions, uid, qid, answer).result == Graded(true) ==>
              Step(users, questions, uid, qid, answer).users[uid] ==
                User(users[uid].username, users[uid].score + 1, users[uid].answeredQuestions + [qid])
  {
  }

  predicate NoDuplicates(s: seq<QuestionId>)
  {
    forall i, j :: 0 <= i < j < |s| ==> s[i] != s[j]
  }

  /** A user who has scored once per answered question, each question once. */
  predicate Consistent(u: User)
  {
    NoDuplicates(u.answeredQuestions) && u.score == |u.answeredQuestions|
  }

  predicate AllConsistent(users: map<UserId, User>)
  {
    forall id :: id in users ==> Consistent(users[id])
  }

  lemma CreditKeepsConsistent(u: User, qid: QuestionId)
    requires Consistent(u) && qid !in u.answeredQuestions
    ensures Consistent(Credit(u, qid))
  {
  }

  lemma StepKeepsConsistent(users: map<UserId, User>, questions: seq<Question>,
                            uid: UserId, qid: QuestionId, answer: string)
    requires AllConsistent(users)
    ensures AllConsistent(Step(users, questions, uid, qid, answer).users)
  {
  }

  /** Once a question has scored, submitting it again is refused and changes nothing. */
  lemma NoDoubleScoring(users: map<UserId, User>, questions: seq<Question>,
                        uid: UserId, qid: QuestionId, answer: string, again: string)
    requires Step(users, questions, uid, qid, answer).result == Graded(true)
    ensures var after := Step(users, questions, uid, qid, answer).users;
            Step(after, questions, uid, qid, again) == Effect(AlreadyAnswered, after, None)
  {
  }

  /** A wrong answer uses up nothing: the right answer afterwards scores as it would have. */
  lemma WrongAnswerMayBeRetried(users: map<UserId, User>, questions: seq<Question>,
                                uid: UserId, qid: QuestionId, wrong: string, right: string)
    requires Step(users, questions, uid, qid, wrong).result == Graded(false)
    ensures Step(users, questions, uid, qid, wrong).users == users
    ensures Step(Step(users, questions, uid, qid, wrong).users, questions, uid, qid, right) ==
              Step(users, questions, uid, qid, right)
  {
  }

  datatype Request = Request(userId: UserId, questionId: QuestionId, answer: string)

  /** The user table after the requests, the snapshots broadcast in order, and each result. */
  datatype Trace = Trace(users: map<UserId, User>, log: seq<Snapshot>, results: seq<SubmitResult>)

  function Replay(users: map<UserId, User>, questions: seq<Question>, reqs: seq<Request>): (t: Trace)
    ensures |t.results| == |reqs|
    ensures t.users.Keys == users.Keys
  {
    if reqs == [] then Trace(users, [], [])
    else
      var e := Step(users, questions, reqs[0].userId, reqs[0].questionId, reqs[0].answer);
      var rest := Replay(e.users, questions, reqs[1..]);
      Trace(rest.users,
            (if e.broadcast.Some? then [e.broadcast.value] else []) + rest.log,
            [e.result] + rest.results)
  }

  /** How many of the results are correct answers by `uid` (all users when `uid` is None). */
  function Scored(reqs: seq<Request>, results: seq<SubmitResult>, uid: Option<UserId>): nat
    requires |results| == |reqs|
  {
    if reqs == [] then 0
    else
      (if results[0] == Graded(true) && (uid.None? || reqs[0].userId == uid.value) then 1 else 0)
      + Scored(reqs[1..], results[1..], uid)
  }

  /** Any sequence of submissions keeps every user consistent. */
  lemma {:induction false} ReplayKeepsConsistent(users: map<UserId, User>, questions: seq<Question>,
                                                 reqs: seq<Request>)
    requires AllConsistent(users)
    ensures AllConsistent(Replay(users, questions, reqs).users)
  {
    if reqs != [] {
      StepKeepsConsistent(users, questions, reqs[0].userId, reqs[0].questionId, reqs[0].answer);
      var e := Step(users, questions, reqs[0].userId, reqs[0].questionId, reqs[0].answer);
      ReplayKeepsConsistent(e.users, questions, reqs[1..]);
    }
  }

  /** A user's score grows by exactly the number of their correct answers. */
  lemma {:induction false} ReplayScore(users: map<UserId, User>, questions: seq<Question>,
                                       reqs: seq<Request>, uid: UserId)
    requires uid in users
    ensures var t := Replay(users, questions, reqs);
            t.users[uid].score == users[uid].score + Scored(reqs, t.results, Some(uid))
  {
    if reqs != [] {
      var e := Step(users, questions, reqs[0].userId, reqs[0].questionId, reqs[0].answer);
      ReplayScore(e.users, questions, reqs[1..], uid);
      var t := Replay(users, questions, reqs);
      assert t.results[1..] == Replay(e.users, questions, reqs[1..]).results;
    }
  }

  /** Exactly one snapshot is broadcast per correct answer, and none otherwise. */
  lemma {:induction false} ReplayBroadcasts(users: map<UserId, User>, questions: seq<Question>,
                                            reqs: seq<Request>)
    ensures var t := Replay(users, questions, reqs);
            |t.log| == Scored(reqs, t.results, None)
  {
    if reqs != [] {
      var e := Step(users, questions, reqs[0].userId, reqs[0].questionId, reqs[0].answer);
      ReplayBroadcasts(e.users, questions, reqs[1..]);
      var t := Replay(users, questions, reqs);
      assert t.results[1..] == Replay(e.users, questions, reqs[1..]).results;
    }
  }

  /** Answered questions are only ever appended to: earlier answers are never lost. */
  lemma {:induction false} ReplayOnlyAppends(users: map<UserId, User>, questions: seq<Question>,
                                             reqs: seq<Request>, uid: UserId)
    requires uid in users
    ensures var after := Replay(users, questions, reqs).users[uid].answeredQuestions;
            users[uid].answeredQuestions <= after
  {
    if reqs != [] {
      var e := Step(users, questions, reqs[0].userId, reqs[0].questionId, reqs[0].answer);
      ReplayOnlyAppends(e.users, questions, reqs[1..], uid);
    }
  }
}
