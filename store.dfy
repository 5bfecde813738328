/**
 * The quiz router as a stateful object: the user and question tables, the
 * `io` handle that `setSocketIO` assigns, and the log of `scoreUpdated`
 * snapshots emitted so far. The two routes run the middleware first.
 */
module QuizStore {
  import opened Wrappers
  import opened BearerHeader
  import opened Questions
  import opened Submission

  datatype QuestionsResponse =
    | QuestionsUnauthorized(reason: AuthFailure)
    | QuestionList(listing: seq<PublicQuestion>)

  datatype SubmitResponse =
    | SubmitUnauthorized(reason: AuthFailure)
    | Submitted(result: SubmitResult)

  class Store {
    var users: map<UserId, User>
    var questions: seq<Question>
    /** Every snapshot emitted on `scoreUpdated`, oldest first. */
    var broadcasts: seq<Snapshot>
    /** Whether `setSocketIO` has assigned the `io` handle. */
    var socketAttached: bool

    /** Every user has scored once per answered question and never answered one twice. */
    ghost predicate Valid()
      reads this
    {
      AllConsistent(users)
    }

    /**
     * The state after a submission by `uid` from users `users0` and log
     * `log0`: the table is the step's, and the step's snapshot is logged only
     * when a socket is attached (otherwise the emit throws after the commit).
     */
    ghost predicate SubmittedFrom(users0: map<UserId, User>, log0: seq<Snapshot>,
                                  uid: UserId, qid: QuestionId, answer: string, r: SubmitResult)
      reads this
    {
      var e := Step(users0, questions, uid, qid, answer);
      && users == e.users
      && r == (if e.result == Graded(true) && !socketAttached then EmitFailed else e.result)
      && broadcasts == log0 + (if e.broadcast.Some? && socketAttached then [e.broadcast.value] else [])
    }

    constructor (users: map<UserId, User>, questions: seq<Question>)
      ensures this.users == users && this.questions == questions
      ensures broadcasts == [] && !socketAttached
      ensures AllConsistent(users) ==> Valid()
    {
      this.users := users;
      this.questions := questions;
      broadcasts := [];
      socketAttached := false;
    }

    method SetSocketIO()
      modifies this`socketAttached
      ensures socketAttached
    {
      socketAttached := true;
    }

    /**
     * The `POST /submit` handler for an already authenticated `uid`.
     * `Step` is its specification (see `SubmittedFrom`); the other clauses
     * spell out each path of the handler.
     */
    method Submit(uid: UserId, qid: QuestionId, answer: string) returns (r: SubmitResult)
      modifies this`users, this`broadcasts
      ensures SubmittedFrom(old(users), old(broadcasts), uid, qid, answer, r)
      ensures uid !in old(users) ==> r == NotFoundUser
      ensures uid in old(users) && qid in old(users)[uid].answeredQuestions ==> r == AlreadyAnswered
      ensures (uid in old(users) && qid !in old(users)[uid].answeredQuestions &&
               FindQuestion(questions, qid).None?) ==> r == NotFoundQuestion
      ensures r.Graded? ==> r.isCorrect == (FindQuestion(questions, qid).Some? &&
                                            FindQuestion(questions, qid).value.answer == answer)
      ensures !(r == Graded(true) || r == EmitFailed) ==>
                users == old(users) && broadcasts == old(broadcasts)
      ensures r == Graded(true) || r == EmitFailed ==>
                users == old(users)[uid := Credit(old(users)[uid], qid)]
      ensures r == Graded(true) ==> broadcasts == old(broadcasts) + [Leaderboard(users)]
      ensures old(Valid()) ==> Valid()
    {
      if uid !in users {
        return NotFoundUser;
      }
      var user := users[uid];
      if qid in user.answeredQuestions {
        return AlreadyAnswered;
      }
      var question := FindQuestion(questions, qid);
      if question.None? {
        return NotFoundQuestion;
      }
      var isCorrect := question.value.answer == answer;
      if isCorrect {
        if Valid() {
          StepKeepsConsistent(users, questions, uid, qid, answer);
        }
        users := users[uid := Credit(user, qid)];
        if !socketAttached {
          return EmitFailed;
        }
        broadcasts := broadcasts + [Leaderboard(users)];
      }
      r := Graded(isCorrect);
    }

    /** `GET /questions` behind the middleware. */
    method GetQuestions<Id>(header: Option<string>, verify: string -> Option<Id>)
      returns (resp: QuestionsResponse)
      ensures resp.QuestionsUnauthorized? <==> Authenticate(header, verify).Rejected?
      ensures resp.QuestionsUnauthorized? ==> resp.reason == Authenticate(header, verify).reason
      ensures resp.QuestionList? ==> resp.listing == ListQuestions(questions)
    {
      var auth := Authenticate(header, verify);
      if auth.Rejected? {
        return QuestionsUnauthorized(auth.reason);
      }
      resp := QuestionList(ListQuestions(questions));
    }

    /** `POST /submit` behind the middleware: a rejected header never reaches the handler. */
    method PostSubmit(header: Option<string>, verify: string -> Option<UserId>,
                      qid: QuestionId, answer: string) returns (resp: SubmitResponse)
      modifies this`users, this`broadcasts
      ensures Authenticate(header, verify).Rejected? ==>
                resp == SubmitUnauthorized(Authenticate(header, verify).reason) &&
                users == old(users) && broadcasts == old(broadcasts)
      ensures Authenticate(header, verify).Authenticated? ==>
                resp.Submitted? &&
                SubmittedFrom(old(users), old(broadcasts), Authenticate(header, verify).userId,
                              qid, answer, resp.result)
      ensures old(Valid()) ==> Valid()
    {
      var auth := Authenticate(header, verify);
      if auth.Rejected? {
        return SubmitUnauthorized(auth.reason);
      }
      var r := Submit(auth.userId, qid, answer);
      resp := Submitted(r);
    }
  }

  /** The two seeded questions, with the ids the database gives them. */
  function SeedQuestions(): seq<Question>
  {
    [Question(1, "What is the capital of France?", ["Paris", "London", "Berlin", "Rome"], "Paris"),
     Question(2, "What is 2 + 2?", ["3", "4", "5", "6"], "4")]
  }

  /** A client session: list the questions without their answers. */
  method ListingSession(token: string)
    requires Space !in token
  {
    var questions := SeedQuestions();
    var verify := (t: string) => if t == token then Some(7) else None;
    var store := new Store(map[7 := User("alice", 0, [])], questions);
    AuthenticateWellFormed(token, verify);
    var listed := store.GetQuestions(Some(Scheme + [Space] + token), verify);
    assert listed == QuestionList([PublicQuestion(1, questions[0].question, questions[0].options),
                                   PublicQuestion(2, questions[1].question, questions[1].options)]);
    listed := store.GetQuestions(None, verify);
    assert listed == QuestionsUnauthorized(NoTokenProvided);
  }

  /** A client session: answer one question correctly, then repeat it. */
  method SeededSession()
  {
    var questions := SeedQuestions();
    var store := new Store(map[7 := User("alice", 0, [])], questions);
    assert store.Valid();
    store.SetSocketIO();

    assert FindQuestion(questions, 2) == Some(questions[1]);
    var r := store.Submit(7, 2, "4");
    assert r == Graded(true);
    assert [] + [2] == [2];
    assert store.users == map[7 := User("alice", 1, [2])];
    assert Leaderboard(store.users).Keys == {7} && Leaderboard(store.users)[7] == Standing("alice", 1);
    assert Leaderboard(store.users) == map[7 := Standing("alice", 1)];
    assert store.broadcasts == [map[7 := Standing("alice", 1)]];

    r := store.Submit(7, 2, "4");
    assert r == AlreadyAnswered;
    assert store.users[7].score == 1 && |store.broadcasts| == 1;
    assert store.Valid();
  }

  /** A client session: a missing header, a wrong answer, and its successful retry. */
  method RetrySession()
  {
    var questions := SeedQuestions();
    var verify := (t: string) => if t == "alice" then Some(7) else None;
    var alice := User("alice", 0, []);
    var store := new Store(map[7 := alice], questions);
    store.SetSocketIO();

    var resp := store.PostSubmit(None, verify, 1, "Paris");
    assert resp == SubmitUnauthorized(NoTokenProvided);

    assert FindQuestion(questions, 1) == Some(questions[0]);
    var r := store.Submit(7, 1, "paris");
    assert r == Graded(false);
    assert store.users == map[7 := alice] && store.broadcasts == [];

    r := store.Submit(7, 1, "Paris");
    assert r == Graded(true);
    assert store.users[7].score == 1;
  }
}
