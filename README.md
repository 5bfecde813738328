# Quiz routes: bearer-header check, question listing and answer submission

This project models the quiz router of a small quiz web application
(`backend/src/routes/quiz.ts`). The router has three parts:

- the `authenticate` middleware, which classifies the `Authorization` header and hands the
  bearer token to the JWT signature check;
- `GET /questions`, which lists every stored question with its `answer` field removed;
- `POST /submit`, which runs a fixed sequence of checks against the user and question tables.
  Only a correct answer changes anything: the user's score goes up by one, the question id is
  pushed onto their `answeredQuestions`, and a `scoreUpdated` snapshot of every user's
  (id, username, score) goes out to all socket subscribers.

Files:

- `wrappers.dfy` (`Wrappers`): the `Option` datatype.
- `header.dfy` (`BearerHeader`): JavaScript's `split(" ")` as `Split`, with `Join` as its
  inverse. Also the header classification (`Classify`) and the whole middleware
  (`Authenticate`). The signature check is a function parameter `verify` that maps a token to
  the payload's id, or to `None` where `jwt.verify` throws.
- `questions.dfy` (`Questions`): the question record, the public listing, and `findUnique` by id.
- `submission.dfy` (`Submission`): the submit handler as a pure step (`Step`) over the user
  table (a map from user id to user) and the question table (a sequence in row order).
  `Replay` runs a sequence of submissions. The module also holds the invariants they keep.
- `store.dfy` (`QuizStore`): the router as a class `Store`. Its fields are the two tables, the
  log of emitted snapshots and whether `setSocketIO` has assigned the `io` handle. `Submit`,
  `GetQuestions` and `PostSubmit` are its methods. Three client sessions over the two seeded
  questions go through a correct answer, its repeat, a missing header, and a wrong answer
  followed by its retry.

The `io` handle is a module-level variable that `setSocketIO` assigns. If a correct answer
arrives before that, the update is committed and `io.emit` then throws, so no response is
sent. The model returns `EmitFailed` for this case: the user is credited and nothing is
broadcast. `server.ts` assigns the handle at start-up, so in a running server this case does
not occur.

## Model

| member | source | states |
|---|---|---|
| `BearerHeader.Split` | backend/src/routes/quiz.ts:19 | `split(" ")` gives one more piece than the header has spaces, and no piece contains a space |
| `BearerHeader.JoinSplit` | backend/src/routes/quiz.ts:19 | splitting loses nothing: joining the pieces with the separator gives back the header |
| `BearerHeader.SplitJoin` | backend/src/routes/quiz.ts:19 | pieces without the separator are exactly what splitting their join returns |
| `BearerHeader.Classify` | backend/src/routes/quiz.ts:12-23 | "no token" exactly when the header is absent or empty (falsy); a token never contains a space |
| `BearerHeader.ClassifiedTokenShape` | backend/src/routes/quiz.ts:19-25 | a header that yields token `t` is exactly `"Bearer" + " " + t` with no space in `t` |
| `BearerHeader.WellFormedHeaderClassified` | backend/src/routes/quiz.ts:19-25 | `"Bearer " + t` with space-free `t` is accepted, and `t` is the token passed on |
| `BearerHeader.ClassifyAcceptsExactly` | backend/src/routes/quiz.ts:19-25 | the two directions together: token `t` if and only if the header is `"Bearer " + t` with no space in `t`, so `bearer x` and `Bearer  x` are refused |
| `BearerHeader.Authenticate` | backend/src/routes/quiz.ts:11-34 | rejected as "no token" exactly when the header is absent or empty; as "invalid token format" exactly when a present header is not `"Bearer " + token`; as "invalid token" exactly when the token fails verification; an accepted request carries the id that verification returned |
| `BearerHeader.AuthenticateWellFormed` | backend/src/routes/quiz.ts:25-33 | a well-formed header reaches the signature check with its second piece; the outcome is that check's id, or "invalid token" |
| `Questions.ListQuestions` | backend/src/routes/quiz.ts:69-70 | one entry per stored question, in store order, with id, question and options unchanged |
| `Questions.ListingLosesOnlyAnswers` | backend/src/routes/quiz.ts:70 | putting each question's answer back on the listing recovers the stored questions exactly, so only `answer` is dropped |
| `Questions.ListingHidesAnswers` | backend/src/routes/quiz.ts:70 | two stores that differ only in answers produce the same listing, so no answer leaks |
| `Questions.FindQuestion` | backend/src/routes/quiz.ts:160-162 | None exactly when no stored question has the id; otherwise a stored question with that id |
| `Submission.Credit` | backend/src/routes/quiz.ts:172-178 | the update keeps the username, adds exactly 1 to the score, and appends `questionId` once to the end of the answered list, leaving the earlier entries as they were |
| `Submission.Leaderboard` | backend/src/routes/quiz.ts:180-185 | the broadcast payload has one standing per user, with that user's username and score; it is keyed by id, so the row order of the payload is dropped |
| `Submission.Step` | backend/src/routes/quiz.ts:146-186 | only the submitting user's row may change, and only on a correct answer; a snapshot is emitted exactly on a correct answer and is the leaderboard after the update |
| `Submission.StepScoresExactly` | backend/src/routes/quiz.ts:146-178 | correct if and only if the user exists, has not answered the question, and the question exists with exactly the submitted answer; the user's score then goes up by 1 and the id is appended |
| `Submission.CreditKeepsConsistent` | backend/src/routes/quiz.ts:155-178 | crediting a question not yet answered keeps the answered list duplicate-free and the score equal to its length |
| `Submission.StepKeepsConsistent` | backend/src/routes/quiz.ts:155-178 | one submission of any kind keeps every user's score equal to the number of distinct answered questions |
| `Submission.NoDoubleScoring` | backend/src/routes/quiz.ts:155-178 | after a correct answer, a resubmission of that question with any answer is refused as already answered, changes nothing and broadcasts nothing |
| `Submission.WrongAnswerMayBeRetried` | backend/src/routes/quiz.ts:169-188 | a wrong answer leaves the users unchanged, and a later submission behaves exactly as if the wrong one had not happened |
| `Submission.ReplayKeepsConsistent` | backend/src/routes/quiz.ts:140-190 | any sequence of submissions keeps every user consistent (no duplicate answered ids, score equal to their count) |
| `Submission.ReplayScore` | backend/src/routes/quiz.ts:169-178 | over any sequence of submissions, a user's score grows by exactly the number of their correct answers |
| `Submission.ReplayBroadcasts` | backend/src/routes/quiz.ts:171-186 | over any sequence of submissions, exactly one snapshot is broadcast per correct answer |
| `Submission.ReplayOnlyAppends` | backend/src/routes/quiz.ts:176 | answered questions are only appended: the earlier list is a prefix of the later one |
| `QuizStore.Store.SetSocketIO` | backend/src/routes/quiz.ts:192-194 | after the call the socket handle is attached |
| `QuizStore.Store.Submit` | backend/src/routes/quiz.ts:140-190 | unknown user gives NotFoundUser; an answered question gives AlreadyAnswered even if it no longer exists; a missing question gives NotFoundQuestion; on these paths and on a wrong answer the users and the log are unchanged; a correct answer credits the user and appends one leaderboard snapshot, or gives EmitFailed with no snapshot when no socket is attached; consistency is preserved |
| `QuizStore.Store.GetQuestions` | backend/src/routes/quiz.ts:65-72 | rejected with the middleware's reason exactly when authentication fails, otherwise the sanitised listing of the stored questions |
| `QuizStore.Store.PostSubmit` | backend/src/routes/quiz.ts:140-143 | a rejected header returns 401 with its reason and the handler never runs (nothing changes); an accepted one runs the submission for the token's user |

## Left out

- `backend/src/routes/auth.ts` (register, login) is not part of this model. It is a thin layer over bcrypt hashing, JWT signing and the database's unique constraint.
- The JWT signature check is not modelled. `verify` is an arbitrary function parameter from token to the payload's `id`. A payload without an `id` is not distinguished from a valid one.
- The race between concurrent submissions, where the check at line 155 and the update at line 172 can interleave, is not modelled. The model is sequential, and each submission's update is atomic.
- Prisma queries, `async`/`await`, Express, socket.io delivery, console logging, Swagger comments, HTTP status codes and message texts are not modelled. Results are the datatypes `AuthFailure`, `SubmitResult`, `QuestionsResponse` and `SubmitResponse`.
- The order of rows in the `scoreUpdated` payload is not modelled. The snapshot is a map from user id to (username, score).
- An exception from the database update, or any other uncaught rejection in the handler, is not modelled.
- Request bodies whose `questionId` is not a number, or whose `answer` is not a string, are not modelled. The model types them as `int` and `string`.
- `Questions.FindQuestion` returns the first question with the id. The database's primary key makes ids unique, so this matches `findUnique`.
- `backend/src/server.ts`, `backend/src/seed.ts` and `frontend/src/components/scoreboard.jsx` are not part of this model. The seeded questions appear only as the fixture of the client sessions.
