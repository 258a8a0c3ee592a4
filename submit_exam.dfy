/**
 * The `submit-exam` server function: it authenticates the caller, checks the submitted
 * questions and answers, recomputes the score itself, stores one exam row and asks the
 * database routine `award_exam_points` to credit the points.
 */
module SubmitExam {
  import opened Wrappers
  import opened ExamScoring
  import opened Db

  /**
   * The JSON body. `None` for `examQuestions` or `userAnswers` stands for a missing field or
   * one that is not an array; `claimedScore` stands for any further field a client sends.
   */
  datatype SubmitBody = SubmitBody(
    examQuestions: Option<seq<Question>>, userAnswers: Option<seq<Value>>, examTitle: Option<string>,
    claimedScore: Option<int>)

  /** The HTTP request: the `Authorization` header and the body, `None` when it is not JSON. */
  datatype SubmitRequest = SubmitRequest(authorization: Option<string>, body: Option<SubmitBody>)

  datatype SubmitResponse =
    | Scored(score: int, pointsAwarded: int, correctCount: int, totalQuestions: int)
    | Failed(status: int)

  /** Every submitted answer is an answer given. */
  function AsAnswered(values: seq<Value>): (r: seq<Option<Value>>)
    ensures |r| == |values| && forall i :: 0 <= i < |values| ==> r[i] == Some(values[i])
  {
    seq(|values|, i requires 0 <= i < |values| => Some(values[i]))
  }

  /** The `forEach` loop: counts the positions whose answer is identical to the correct one. */
  method CountCorrect(questions: seq<Question>, userAnswers: seq<Value>) returns (correctCount: nat)
    requires |userAnswers| == |questions|
    ensures correctCount == CorrectCount(questions, AsAnswered(userAnswers))
  {
    ghost var answered := AsAnswered(userAnswers);
    correctCount := 0;
    var idx := 0;
    while idx < |questions|
      invariant 0 <= idx <= |questions|
      invariant correctCount == CorrectCount(questions[..idx], answered[..idx])
    {
      CorrectCountStep(questions, answered, idx);
      if userAnswers[idx] == questions[idx].correctAnswer {
        correctCount := correctCount + 1;
      }
      idx := idx + 1;
    }
    assert questions[..idx] == questions && answered[..idx] == answered;
  }

  /** The checks before scoring: the status they fail with, if any. */
  function Rejection(req: SubmitRequest, authUser: Option<string>): (r: Option<int>)
    ensures r == None <==>
      req.authorization.Some? && req.authorization.value != "" && authUser.Some? && req.body.Some?
      && req.body.value.examQuestions.Some? && req.body.value.examQuestions.value != []
      && req.body.value.userAnswers.Some?
      && |req.body.value.userAnswers.value| == |req.body.value.examQuestions.value|
    ensures r.Some? ==> r.value in {400, 401, 500}
    ensures r == Some(401) <==> req.authorization.None? || req.authorization.value == "" || authUser.None?
  {
    if req.authorization.None? || req.authorization.value == "" then Some(401)
    else if authUser.None? then Some(401)
    else if req.body.None? then Some(500)
    else
      var body := req.body.value;
      if body.examQuestions.None? || body.examQuestions.value == [] then Some(400)
      else if body.userAnswers.None? || |body.userAnswers.value| != |body.examQuestions.value| then Some(400)
      else None
  }

  /** `examTitle ||` the default title for the day. */
  function ExamTitle(title: Option<string>, today: string): (t: string)
    ensures title.Some? && title.value != "" ==> t == title.value
    ensures (title.None? || title.value == "") ==> t == "آزمون " + today
  {
    if title.Some? && title.value != "" then title.value else "آزمون " + today
  }

  /** The exam row stored for an accepted submission. */
  function ExamRecord(req: SubmitRequest, authUser: Option<string>, examId: string, now: int, today: string): (row: ExamRow)
    requires Rejection(req, authUser) == None
    ensures row.userId == authUser.value && row.id == examId && row.completedAt == now
    ensures row.questions == req.body.value.examQuestions.value
    ensures row.answers == AnswerList(req.body.value.userAnswers.value)
    ensures
      var qs := req.body.value.examQuestions.value;
      var c := CorrectCount(qs, AsAnswered(req.body.value.userAnswers.value));
      row.score == Some(Percentage(c, |qs|)) && row.pointsAwarded == Some(PointsAwarded(c, |qs|))
  {
    var body := req.body.value;
    var qs := body.examQuestions.value;
    var c := CorrectCount(qs, AsAnswered(body.userAnswers.value));
    ExamRow(examId, authUser.value, ExamTitle(body.examTitle, today), qs, AnswerList(body.userAnswers.value),
            Some(Percentage(c, |qs|)), Some(PointsAwarded(c, |qs|)), now)
  }

  /** The response for a request, given whether the exam insert and the points routine fail. */
  function SubmitOutcome(req: SubmitRequest, authUser: Option<string>, examFails: bool, awardFails: bool): (r: SubmitResponse)
    ensures r.Scored? <==> Rejection(req, authUser) == None && !examFails && !awardFails
    ensures Rejection(req, authUser).Some? ==> r == Failed(Rejection(req, authUser).value)
    ensures r.Failed? ==> r.status in {400, 401, 500}
    ensures r.Scored? ==>
      var qs := req.body.value.examQuestions.value;
      && r.totalQuestions == |qs|
      && r.correctCount == CorrectCount(qs, AsAnswered(req.body.value.userAnswers.value))
      && 0 <= r.correctCount <= r.totalQuestions
      && 0 <= r.score <= 100 && r.score == Percentage(r.correctCount, |qs|)
      && r.correctCount + 10 <= r.pointsAwarded <= r.correctCount + 20
  {
    var rejection := Rejection(req, authUser);
    if rejection.Some? then Failed(rejection.value)
    else if examFails || awardFails then Failed(500)
    else
      var qs := req.body.value.examQuestions.value;
      var c := CorrectCount(qs, AsAnswered(req.body.value.userAnswers.value));
      Scored(Percentage(c, |qs|), PointsAwarded(c, |qs|), c, |qs|)
  }

  /**
   * The handler. `authUser` is the user the token resolves to, `examId` the id the insert
   * returns, `now` and `today` the clock; `examFails` and `awardFails` are the outcomes of
   * the insert and of the `award_exam_points` call, whose own effect is not modelled:
   * `award` reports the arguments it was called with.
   */
  method HandleSubmit(db: Database, req: SubmitRequest, authUser: Option<string>, examId: string, now: int,
                      today: string, examFails: bool, awardFails: bool)
    returns (resp: SubmitResponse, award: Option<(int, string)>)
    modifies db`exams
    ensures resp == SubmitOutcome(req, authUser, examFails, awardFails)
    ensures Rejection(req, authUser) == None && !examFails
      ==> db.exams == old(db.exams) + [ExamRecord(req, authUser, examId, now, today)]
          && award == Some((ExamRecord(req, authUser, examId, now, today).pointsAwarded.value, examId))
    ensures Rejection(req, authUser).Some? || examFails ==> db.exams == old(db.exams) && award == None
  {
    if req.authorization.None? || req.authorization.value == "" {
      return Failed(401), None;
    }
    if authUser.None? {
      return Failed(401), None;
    }
    if req.body.None? {
      return Failed(500), None;
    }
    var body := req.body.value;
    if body.examQuestions.None? || body.examQuestions.value == [] {
      return Failed(400), None;
    }
    var examQuestions := body.examQuestions.value;
    if body.userAnswers.None? || |body.userAnswers.value| != |examQuestions| {
      return Failed(400), None;
    }
    var userAnswers := body.userAnswers.value;

    var correctCount := CountCorrect(examQuestions, userAnswers);
    var percentage := (200 * correctCount + |examQuestions|) / (2 * |examQuestions|);
    var pointsAwarded := 10 + correctCount;
    if percentage >= 100 {
      pointsAwarded := pointsAwarded + 10;
    } else if percentage >= 80 {
      pointsAwarded := pointsAwarded + 5;
    }

    if examFails {
      return Failed(500), None;
    }
    var row := ExamRow(examId, authUser.value, ExamTitle(body.examTitle, today), examQuestions,
                       AnswerList(userAnswers), Some(percentage), Some(pointsAwarded), now);
    db.exams := db.exams + [row];
    award := Some((pointsAwarded, examId));
    if awardFails {
      return Failed(500), award;
    }
    resp := Scored(percentage, pointsAwarded, correctCount, |examQuestions|);
  }

  /** A missing, non-array or empty question list is refused with 400 once the caller is signed in. */
  lemma BadQuestionsRejected(req: SubmitRequest, authUser: Option<string>, examFails: bool, awardFails: bool)
    requires req.authorization.Some? && req.authorization.value != "" && authUser.Some? && req.body.Some?
    requires req.body.value.examQuestions.None? || req.body.value.examQuestions.value == []
    ensures SubmitOutcome(req, authUser, examFails, awardFails) == Failed(400)
  {
  }

  /** Answers that are missing or of another length than the questions are refused with 400. */
  lemma BadAnswersRejected(req: SubmitRequest, authUser: Option<string>, examFails: bool, awardFails: bool)
    requires req.authorization.Some? && req.authorization.value != "" && authUser.Some? && req.body.Some?
    requires req.body.value.examQuestions.Some? && req.body.value.examQuestions.value != []
    requires req.body.value.userAnswers.None?
      || |req.body.value.userAnswers.value| != |req.body.value.examQuestions.value|
    ensures SubmitOutcome(req, authUser, examFails, awardFails) == Failed(400)
  {
  }

  /**
   * A successful response reports what was stored: the same score and points as the exam
   * row, the number of correct answers and the number of questions; the score lies in
   * 0..100 and the points in 10..n+20.
   */
  lemma ResponseMatchesRecord(req: SubmitRequest, authUser: Option<string>, examId: string, now: int, today: string)
    requires SubmitOutcome(req, authUser, false, false).Scored?
    ensures Rejection(req, authUser) == None
    ensures
      var resp := SubmitOutcome(req, authUser, false, false);
      var row := ExamRecord(req, authUser, examId, now, today);
      && row.score == Some(resp.score) && row.pointsAwarded == Some(resp.pointsAwarded)
      && resp.totalQuestions == |req.body.value.examQuestions.value|
      && resp.correctCount == |CorrectIndices(req.body.value.examQuestions.value, AsAnswered(req.body.value.userAnswers.value))|
      && 0 <= resp.score <= 100 && 10 <= resp.pointsAwarded <= resp.totalQuestions + 20
  {
    var qs := req.body.value.examQuestions.value;
    var answered := AsAnswered(req.body.value.userAnswers.value);
    CorrectCountIsSize(qs, answered);
    PointsBounds(CorrectCount(qs, answered), |qs|);
  }

  /** Whatever score the client claims, the response is the same: the score is recomputed. */
  lemma ClaimedScoreIgnored(req: SubmitRequest, authUser: Option<string>, claimed: Option<int>, examFails: bool, awardFails: bool)
    requires req.body.Some?
    ensures
      var forged := req.(body := Some(req.body.value.(claimedScore := claimed)));
      SubmitOutcome(forged, authUser, examFails, awardFails) == SubmitOutcome(req, authUser, examFails, awardFails)
  {
  }
}
