/**
 * The exam page: it asks the generator for questions about the entered text, records the
 * chosen option per question, scores the exam on the client, stores it, and adds the
 * points and one taken exam to the user's profile.
 */
module ExamPage {
  import opened Wrappers
  import opened Strings
  import opened Listing
  import opened ExamScoring
  import opened Db
  import SubmitExam

  /** The chosen options as answers: an index without a choice is unanswered. */
  function ClientAnswered(answers: map<nat, string>, n: nat): (r: seq<Option<Value>>)
    ensures |r| == n
    ensures forall i :: 0 <= i < n ==> (r[i] == None <==> i !in answers)
    ensures forall i :: 0 <= i < n && i in answers ==> r[i] == Some(Str(answers[i]))
  {
    seq(n, i requires 0 <= i < n => if i in answers then Some(Str(answers[i])) else None)
  }

  /**
   * `Math.round(score / exam.questions.length * 100)` on the page. For an empty exam the
   * quotient `0 / 0` is `NaN`, which the database stores as `NULL` (`None`).
   */
  function ClientPercentage(c: nat, n: nat): (r: Option<nat>)
    requires c <= n
    ensures r.None? <==> n == 0
    ensures r.Some? ==> r.value <= 100
  {
    if n == 0 then None else Some(Percentage(c, n))
  }

  /**
   * The page's points: 10 plus the score plus the bonus. `NaN` passes neither bonus test,
   * so an empty exam earns the base 10.
   */
  function ClientPoints(c: nat, n: nat): (p: nat)
    requires c <= n
    ensures 10 + c <= p <= 10 + c + 10
  {
    if n == 0 then 10 else PointsAwarded(c, n)
  }

  /** An empty exam stores no percentage and earns 10 points. */
  lemma EmptyExamEarnsBase()
    ensures ClientPercentage(0, 0) == None && ClientPoints(0, 0) == 10
  {
  }

  /**
   * The page scores exactly as the server does: when every question has a chosen option
   * and the server receives those options in order, the counts, percentages and points agree.
   */
  lemma ClientAgreesWithServer(qs: seq<Question>, answers: map<nat, string>, userAnswers: seq<Value>)
    requires |userAnswers| == |qs| && 0 < |qs|
    requires forall i :: 0 <= i < |qs| ==> i in answers && userAnswers[i] == Str(answers[i])
    ensures CorrectCount(qs, ClientAnswered(answers, |qs|)) == CorrectCount(qs, SubmitExam.AsAnswered(userAnswers))
    ensures
      var c := CorrectCount(qs, ClientAnswered(answers, |qs|));
      var server := CorrectCount(qs, SubmitExam.AsAnswered(userAnswers));
      ClientPercentage(c, |qs|) == Some(Percentage(server, |qs|))
      && ClientPoints(c, |qs|) == PointsAwarded(server, |qs|)
  {
    assert ClientAnswered(answers, |qs|) == SubmitExam.AsAnswered(userAnswers);
  }

  /**
   * The profile write after an exam: the rows of the user get the points read before,
   * plus the award, and the exams taken read before, plus one (a missing value counts as 0).
   */
  function CreditExam(rows: seq<Profile>, userId: string, award: int, read: Option<Profile>): (r: seq<Profile>)
    ensures |r| == |rows|
    ensures forall i :: 0 <= i < |rows| && rows[i].id != userId ==> r[i] == rows[i]
    ensures forall i :: 0 <= i < |rows| && rows[i].id == userId ==>
      r[i] == rows[i].(points := Some((if read.Some? then read.value.points.GetOr(0) else 0) + award),
                       examsTaken := Some((if read.Some? then read.value.examsTaken.GetOr(0) else 0) + 1))
  {
    if rows == [] then []
    else
      var p := if read.Some? then read.value.points.GetOr(0) else 0;
      var e := if read.Some? then read.value.examsTaken.GetOr(0) else 0;
      [if rows[0].id == userId then rows[0].(points := Some(p + award), examsTaken := Some(e + 1)) else rows[0]]
      + CreditExam(rows[1..], userId, award, read)
  }

  /**
   * For a user with exactly one profile row, the row's points grow by exactly the award
   * and its exams taken by exactly one; no other field and no other row changes.
   */
  lemma CreditExamUnique(rows: seq<Profile>, userId: string, award: int, k: nat)
    requires k < |rows| && rows[k].id == userId
    requires forall i :: 0 <= i < |rows| && i != k ==> rows[i].id != userId
    ensures ProfileOf(rows, userId) == Some(rows[k])
    ensures
      var r := CreditExam(rows, userId, award, ProfileOf(rows, userId));
      && r[k].points.GetOr(0) == rows[k].points.GetOr(0) + award
      && r[k].examsTaken.GetOr(0) == rows[k].examsTaken.GetOr(0) + 1
      && r[k] == rows[k].(points := r[k].points, examsTaken := r[k].examsTaken)
      && forall i :: 0 <= i < |rows| && i != k ==> r[i] == rows[i]
  {
    FilterOnlyOne(rows, (p: Profile) => p.id == userId, k);
  }

  class ExamScreen {
    const db: Database
    var content: string
    var exam: Option<seq<Question>>
    var answers: map<nat, string>
    var showResults: bool

    constructor (db: Database)
      ensures this.db == db && content == "" && exam == None && answers == map[] && !showResults
    {
      this.db := db;
      content, exam, answers, showResults := "", None, map[], false;
    }

    /**
     * `generateExam`: blank content is refused before the generator is asked (`asked` is
     * false); otherwise `generated` is what the generator returned.
     */
    method GenerateExam(generated: Result<seq<Question>, string>) returns (asked: bool, error: Option<string>)
      modifies this`exam
      ensures asked <==> Trim(content) != ""
      ensures !asked ==> error == Some("لطفا محتوا را وارد کنید") && exam == old(exam)
      ensures asked && generated.Ok? ==> exam == Some(generated.value) && error == None
      ensures asked && generated.Err? ==> exam == old(exam) && error == Some(generated.error)
    {
      if Trim(content) == "" {
        return false, Some("لطفا محتوا را وارد کنید");
      }
      asked := true;
      match generated
      case Ok(qs) =>
        exam := Some(qs);
        error := None;
      case Err(message) =>
        error := Some(message);
    }

    /** Clicking an option: recorded while the results are hidden, ignored once they are shown. */
    method SelectOption(index: nat, option: string)
      modifies this`answers
      ensures showResults ==> answers == old(answers)
      ensures !showResults ==> answers == old(answers)[index := option]
    {
      if !showResults {
        answers := answers[index := option];
      }
    }

    /** The scoring loop: counts the questions whose chosen option is the correct answer. */
    method Score(questions: seq<Question>) returns (score: nat)
      ensures score == CorrectCount(questions, ClientAnswered(answers, |questions|))
    {
      ghost var answered := ClientAnswered(answers, |questions|);
      score := 0;
      var index := 0;
      while index < |questions|
        invariant 0 <= index <= |questions|
        invariant score == CorrectCount(questions[..index], answered[..index])
      {
        CorrectCountStep(questions, answered, index);
        if index in answers && Str(answers[index]) == questions[index].correctAnswer {
          score := score + 1;
        }
        index := index + 1;
      }
      assert questions[..index] == questions && answered[..index] == answered;
    }

    /**
     * `submitExam`: scores the exam, an empty one too (no percentage, 10 points); without
     * a signed-in user it reports an error and writes nothing. Otherwise it stores the
     * exam (`examId`, `now` and `today` come from the database and the clock), reads the
     * profile, writes the new counters and shows the results.
     */
    method SubmitExam(user: Option<string>, examId: string, now: int, today: string)
      returns (error: Option<string>, percentage: Option<nat>, pointsAwarded: nat)
      requires exam.Some?
      modifies this`showResults, db`exams, db`profiles
      ensures var qs := exam.value;
        var c := CorrectCount(qs, ClientAnswered(answers, |qs|));
        percentage == ClientPercentage(c, |qs|) && pointsAwarded == ClientPoints(c, |qs|)
      ensures user.None? ==> error.Some? && unchanged(db) && showResults == old(showResults)
      ensures user.Some? ==>
        && error == None && showResults
        && db.exams == old(db.exams) + [ExamRow(examId, user.value, "آزمون " + today, exam.value,
                                              AnswerRecord(answers), percentage, Some(pointsAwarded), now)]
        && db.profiles == CreditExam(old(db.profiles), user.value, pointsAwarded, ProfileOf(old(db.profiles), user.value))
    {
      var questions := exam.value;
      var score := Score(questions);
      percentage, pointsAwarded := ClientPercentage(score, |questions|), ClientPoints(score, |questions|);
      if user.None? {
        return Some("لطفا ابتدا وارد شوید"), percentage, pointsAwarded;
      }
      var userId := user.value;
      db.exams := db.exams + [ExamRow(examId, userId, "آزمون " + today, questions, AnswerRecord(answers),
                                      percentage, Some(pointsAwarded), now)];
      var profile := ProfileOf(db.profiles, userId);
      db.profiles := CreditExam(db.profiles, userId, pointsAwarded, profile);
      showResults := true;
      error := None;
    }

    /** "New exam": back to the form, with no answers and the results hidden. */
    method NewExam()
      modifies this`exam, this`answers, this`showResults
      ensures exam == None && answers == map[] && !showResults
    {
      exam, answers, showResults := None, map[], false;
    }
  }
}
