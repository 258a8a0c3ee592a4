/**
 * Exam scoring, shared by the server's `submit-exam` function and the exam page: the
 * number of questions answered with exactly the correct answer, the percentage rounded
 * to the nearest integer, and the points awarded (10, plus one per correct answer, plus
 * a bonus of 10 for a perfect percentage or else 5 for 80 or more).
 */
module ExamScoring {
  import opened Wrappers

  /** A JSON scalar as it arrives in a request or from the generator; `===` is equality here. */
  datatype Value = Null | Num(n: int) | Str(s: string)

  /** One exam question; only `correct_answer` takes part in scoring. */
  datatype Question = Question(question: string, options: seq<string>, correctAnswer: Value, explanation: Option<string>)

  /** Answer `i` is given (`Some`) and is identical to the question's correct answer. */
  predicate IsCorrect(qs: seq<Question>, answered: seq<Option<Value>>, i: int)
    requires |answered| == |qs|
  {
    0 <= i < |qs| && answered[i] == Some(qs[i].correctAnswer)
  }

  /** The number of correctly answered questions, counted from the first to the last. */
  function CorrectCount(qs: seq<Question>, answered: seq<Option<Value>>): (c: nat)
    requires |answered| == |qs|
    ensures c <= |qs|
  {
    if qs == [] then 0
    else
      var n := |qs| - 1;
      CorrectCount(qs[..n], answered[..n]) + if answered[n] == Some(qs[n].correctAnswer) then 1 else 0
  }

  /** The indices that count. */
  function CorrectIndices(qs: seq<Question>, answered: seq<Option<Value>>): set<int>
    requires |answered| == |qs|
  {
    set i | 0 <= i < |qs| && IsCorrect(qs, answered, i)
  }

  /** Counting one more question adds one exactly when that question is answered correctly. */
  lemma CorrectCountStep(qs: seq<Question>, answered: seq<Option<Value>>, i: nat)
    requires |answered| == |qs| && i < |qs|
    ensures CorrectCount(qs[..i + 1], answered[..i + 1])
         == CorrectCount(qs[..i], answered[..i]) + if IsCorrect(qs, answered, i) then 1 else 0
  {
    assert qs[..i + 1][..i] == qs[..i];
    assert answered[..i + 1][..i] == answered[..i];
  }

  /** The count is the number of indices whose answer is the correct one. */
  lemma {:induction false} CorrectCountIsSize(qs: seq<Question>, answered: seq<Option<Value>>)
    requires |answered| == |qs|
    ensures CorrectCount(qs, answered) == |CorrectIndices(qs, answered)|
  {
    if qs != [] {
      var n := |qs| - 1;
      CorrectCountIsSize(qs[..n], answered[..n]);
      var before := CorrectIndices(qs[..n], answered[..n]);
      assert CorrectIndices(qs, answered) == before + if IsCorrect(qs, answered, n) then {n} else {} by {
        forall i | 0 <= i < n ensures IsCorrect(qs[..n], answered[..n], i) == IsCorrect(qs, answered, i) {
        }
      }
    }
  }

  /** Every question counts exactly when every answer is correct. */
  lemma {:induction false} AllCorrectIff(qs: seq<Question>, answered: seq<Option<Value>>)
    requires |answered| == |qs|
    ensures CorrectCount(qs, answered) == |qs| <==> forall i :: 0 <= i < |qs| ==> IsCorrect(qs, answered, i)
  {
    if qs != [] {
      var n := |qs| - 1;
      AllCorrectIff(qs[..n], answered[..n]);
      forall i | 0 <= i < n ensures IsCorrect(qs[..n], answered[..n], i) == IsCorrect(qs, answered, i) {
      }
      if CorrectCount(qs, answered) == |qs| {
        assert IsCorrect(qs, answered, n);
        assert CorrectCount(qs[..n], answered[..n]) == n;
      }
      if forall i :: 0 <= i < |qs| ==> IsCorrect(qs, answered, i) {
        assert IsCorrect(qs, answered, n);
        assert forall i :: 0 <= i < n ==> IsCorrect(qs[..n], answered[..n], i);
      }
    }
  }

  /** An unanswered question never counts, whatever its correct answer. */
  lemma UnansweredNeverCounts(qs: seq<Question>, answered: seq<Option<Value>>, i: int)
    requires |answered| == |qs| && 0 <= i < |qs| && answered[i] == None
    ensures i !in CorrectIndices(qs, answered)
  {
  }

  lemma MulMono(k: nat, a: int, b: int)
    requires b <= a
    ensures k * b <= k * a
  {
    var d := a - b;
    assert k * a == k * b + k * d;
  }

  lemma MulSucc(k: int, a: int)
    ensures k * (a + 1) == k * a + k
  {
  }

  lemma DivBounds(x: nat, d: nat)
    requires 0 < d
    ensures d * (x / d) <= x < d * (x / d) + d
  {
    assert x == d * (x / d) + x % d;
  }

  lemma DivUnique(x: nat, d: nat, q: int)
    requires 0 < d && d * q <= x < d * q + d
    ensures x / d == q
  {
    var r := x / d;
    DivBounds(x, d);
    MulSucc(d, r);
    MulSucc(d, q);
    if r < q {
      MulMono(d, q, r + 1);
    } else if r > q {
      MulMono(d, r, q + 1);
    }
  }

  /**
   * `Math.round(c / n * 100)`: the integer nearest to 100·c/n, halves rounded up. (The
   * source computes in floating point; this is the exact value.)
   */
  function Percentage(c: nat, n: nat): (r: nat)
    requires 0 < n && c <= n
    ensures 2 * n * r <= 200 * c + n < 2 * n * r + 2 * n
    ensures r <= 100
  {
    var r := (200 * c + n) / (2 * n);
    DivBounds(200 * c + n, 2 * n);
    assert r <= 100 by {
      if r > 100 {
        MulMono(2 * n, r, 101);
      }
    }
    r
  }

  /** A perfect count rounds to 100. */
  lemma PerfectIsHundred(n: nat)
    requires 0 < n
    ensures Percentage(n, n) == 100
  {
    DivUnique(200 * n + n, 2 * n, 100);
  }

  /** Below 200 questions, 100 is reached only with every answer correct. */
  lemma HundredIsPerfect(c: nat, n: nat)
    requires 0 < n < 200 && c <= n && Percentage(c, n) == 100
    ensures c == n
  {
    assert 2 * n * 100 <= 200 * c + n;
  }

  /** With 201 questions, 200 correct answers already round to 100 (99.5 percent). */
  lemma HundredWithoutPerfect()
    ensures Percentage(200, 201) == 100
  {
    DivUnique(200 * 200 + 201, 2 * 201, 100);
  }

  /** More correct answers never lower the percentage. */
  lemma PercentageMonotone(c1: nat, c2: nat, n: nat)
    requires 0 < n && c1 <= c2 <= n
    ensures Percentage(c1, n) <= Percentage(c2, n)
  {
    var r1, r2 := Percentage(c1, n), Percentage(c2, n);
    if r1 > r2 {
      MulMono(2 * n, r1, r2 + 1);
      MulSucc(2 * n, r2);
    }
  }

  /** The bonus: 10 for 100 or more, else 5 for 80 or more, else nothing. */
  function Bonus(percentage: nat): (b: nat)
    ensures b == 0 || b == 5 || b == 10
    ensures b == 10 <==> percentage >= 100
    ensures b == 5 <==> 80 <= percentage < 100
  {
    if percentage >= 100 then 10 else if percentage >= 80 then 5 else 0
  }

  /**
   * The points an exam earns: 10, plus one per correct answer, plus 10 more for a
   * percentage of 100, or else 5 more for 80 or more.
   */
  function PointsAwarded(c: nat, n: nat): (p: nat)
    requires 0 < n && c <= n
    ensures p == c + 20 <==> Percentage(c, n) == 100
    ensures p == c + 15 <==> 80 <= Percentage(c, n) < 100
    ensures p == c + 10 <==> Percentage(c, n) < 80
  {
    10 + c + Bonus(Percentage(c, n))
  }

  /** The bonuses never stack: between 10 and `n + 20` points. */
  lemma PointsBounds(c: nat, n: nat)
    requires 0 < n && c <= n
    ensures 10 + c <= PointsAwarded(c, n) <= 10 + c + 10
    ensures 10 <= PointsAwarded(c, n) <= n + 20
  {
  }

  /** A perfect exam earns `n + 20` points. */
  lemma PerfectPoints(n: nat)
    requires 0 < n
    ensures PointsAwarded(n, n) == n + 20
  {
    PerfectIsHundred(n);
  }

  /** Each further correct answer earns strictly more points. */
  lemma PointsMonotone(c1: nat, c2: nat, n: nat)
    requires 0 < n && c1 < c2 <= n
    ensures PointsAwarded(c1, n) < PointsAwarded(c2, n)
  {
    PercentageMonotone(c1, c2, n);
  }

  /**
   * Two questions with correct answers "x" and "y": answering "x", "z" gives one correct
   * answer, 50 percent and 11 points; answering both correctly gives 100 percent and 22.
   */
  lemma TwoQuestionExample()
    ensures var qs := [Question("1", [], Str("x"), None), Question("2", [], Str("y"), None)];
      && CorrectCount(qs, [Some(Str("x")), Some(Str("z"))]) == 1
      && Percentage(1, 2) == 50 && PointsAwarded(1, 2) == 11
      && CorrectCount(qs, [Some(Str("x")), Some(Str("y"))]) == 2
      && Percentage(2, 2) == 100 && PointsAwarded(2, 2) == 22
  {
    var qs := [Question("1", [], Str("x"), None), Question("2", [], Str("y"), None)];
    assert qs[..1] == [qs[0]];
    assert [Some(Str("x")), Some(Str("z"))][..1] == [Some(Str("x"))];
    assert [Some(Str("x")), Some(Str("y"))][..1] == [Some(Str("x"))];
  }
}
