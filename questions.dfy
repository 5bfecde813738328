/**
 * Questions as stored (prompt, options and the correct answer) and the two
 * reads the quiz routes make of them: the public listing, which strips the
 * answer, and the lookup of one question by its id.
 */
module Questions {
  import opened Wrappers

  type QuestionId = int

  datatype Question = Question(id: QuestionId, question: string, options: seq<string>, answer: string)

  /** A question as the listing sends it: every field except `answer`. */
  datatype PublicQuestion = PublicQuestion(id: QuestionId, question: string, options: seq<string>)

  function Sanitize(q: Question): PublicQuestion
  {
    PublicQuestion(q.id, q.question, q.options)
  }

  /** The listing: one entry per stored question, in store order, answer removed. */
  function ListQuestions(qs: seq<Question>): (listing: seq<PublicQuestion>)
    ensures |listing| == |qs|
    ensures forall i :: 0 <= i < |qs| ==>
              listing[i].id == qs[i].id && listing[i].question == qs[i].question &&
              listing[i].options == qs[i].options
  {
    if qs == [] then [] else [Sanitize(qs[0])] + ListQuestions(qs[1..])
  }

  /** Puts answers back on a listing; the reference that shows the listing drops nothing else. */
  function WithAnswers(listing: seq<PublicQuestion>, answers: seq<string>): seq<Question>
    requires |answers| == |listing|
  {
    if listing == [] then []
    else
      [Question(listing[0].id, listing[0].question, listing[0].options, answers[0])]
      + WithAnswers(listing[1..], answers[1..])
  }

  function Answers(qs: seq<Question>): (answers: seq<string>)
    ensures |answers| == |qs|
    ensures forall i :: 0 <= i < |qs| ==> answers[i] == qs[i].answer
  {
    if qs == [] then [] else [qs[0].answer] + Answers(qs[1..])
  }

  /** The listing together with the withheld answers recovers the store exactly. */
  lemma {:induction false} ListingLosesOnlyAnswers(qs: seq<Question>)
    ensures WithAnswers(ListQuestions(qs), Answers(qs)) == qs
  {
    if qs != [] {
      ListingLosesOnlyAnswers(qs[1..]);
      assert ListQuestions(qs)[1..] == ListQuestions(qs[1..]);
      assert Answers(qs)[1..] == Answers(qs[1..]);
    }
  }

  /** Two stores that differ only in their answers give the same listing. */
  lemma ListingHidesAnswers(a: seq<Question>, b: seq<Question>)
    requires |a| == |b|
    requires forall i :: 0 <= i < |a| ==>
               a[i].id == b[i].id && a[i].question == b[i].question && a[i].options == b[i].options
    ensures ListQuestions(a) == ListQuestions(b)
  {
  }

  /** `findUnique` by id: the first stored question with that id, if any. */
  function FindQuestion(qs: seq<Question>, id: QuestionId): (r: Option<Question>)
    ensures r.None? <==> forall i :: 0 <= i < |qs| ==> qs[i].id != id
    ensures r.Some? ==> exists i :: 0 <= i < |qs| && qs[i] == r.value
    ensures r.Some? ==> r.value.id == id
  {
    if qs == [] then None
    else if qs[0].id == id then Some(qs[0])
    else FindQuestion(qs[1..], id)
  }
}
