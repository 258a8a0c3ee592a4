/**
 * The progress page's arithmetic: the next level's threshold, the progress bar, and the
 * four achievements, all computed from the profile's points and exams taken (a missing
 * profile or value counts as 0).
 */
module Progress {
  import opened Wrappers
  import opened Db
  import Listing
  import ExamPage

  /** `profile?.points || 0` */
  function PointsOf(profile: Option<Profile>): int {
    if profile.Some? then profile.value.points.GetOr(0) else 0
  }

  /** `profile?.exams_taken || 0` */
  function ExamsTakenOf(profile: Option<Profile>): int {
    if profile.Some? then profile.value.examsTaken.GetOr(0) else 0
  }

  /** `Math.ceil(points / 100)`, with the floor division of a positive divisor. */
  function CeilHundredths(points: int): int {
    -((-points) / 100)
  }

  /**
   * `Math.ceil(points / 100 + 1) * 100`: the next multiple of 100 that is at least 100
   * and less than 200 above the points.
   */
  function PointsToNextLevel(points: int): (r: int)
    ensures r % 100 == 0
    ensures points + 100 <= r < points + 200
  {
    (CeilHundredths(points) + 1) * 100
  }

  /**
   * The points still missing, as the page shows them: 100 right after a level, and
   * `200 - points % 100` otherwise.
   */
  lemma RemainingPoints(points: int)
    ensures PointsToNextLevel(points) - points == if points % 100 == 0 then 100 else 200 - points % 100
    ensures 100 <= PointsToNextLevel(points) - points <= 199
  {
    var q, m := (-points) / 100, (-points) % 100;
    assert -points == 100 * q + m;
    assert PointsToNextLevel(points) - points == 100 + m;
    if m == 0 {
      assert points == 100 * -q;
    } else {
      assert points == 100 * (-q - 1) + (100 - m);
    }
  }

  /** JavaScript's `%` by 100: the remainder takes the sign of the dividend. */
  function ProgressPercentage(points: int): (r: int)
    ensures points >= 0 ==> r == points % 100 && 0 <= r <= 99
    ensures points < 0 ==> -99 <= r <= 0 && (points - r) % 100 == 0
  {
    if points >= 0 then points % 100 else -((-points) % 100)
  }

  /**
   * The achievements in the order shown: first exam, five exams, 100 points, 500 points.
   * The first two depend on the exams alone, the last two on the points alone, and each
   * later flag of a pair implies the earlier one.
   */
  function Achievements(examsTaken: int, points: int): (r: seq<bool>)
    ensures |r| == 4
    ensures r[0] <==> examsTaken > 0
    ensures r[1] <==> examsTaken > 4
    ensures r[2] <==> points > 99
    ensures r[3] <==> points > 499
    ensures r[1] ==> r[0]
    ensures r[3] ==> r[2]
  {
    [examsTaken >= 1, examsTaken >= 5, points >= 100, points >= 500]
  }

  /** Achievements are never lost: more exams and more points keep every achieved flag. */
  lemma AchievementsMonotone(e1: int, p1: int, e2: int, p2: int, i: nat)
    requires e1 <= e2 && p1 <= p2 && i < 4
    requires Achievements(e1, p1)[i]
    ensures Achievements(e2, p2)[i]
  {
  }

  /**
   * Taking an exam never takes an achievement away: after the exam page credits an
   * exam to a user with one profile row, every flag the page showed before still shows.
   */
  lemma ExamKeepsAchievements(rows: seq<Profile>, userId: string, award: nat, k: nat, i: nat)
    requires k < |rows| && rows[k].id == userId && i < 4
    requires forall j :: 0 <= j < |rows| && j != k ==> rows[j].id != userId
    requires Achievements(ExamsTakenOf(ProfileOf(rows, userId)), PointsOf(ProfileOf(rows, userId)))[i]
    ensures
      var after := ExamPage.CreditExam(rows, userId, award, ProfileOf(rows, userId));
      Achievements(ExamsTakenOf(ProfileOf(after, userId)), PointsOf(ProfileOf(after, userId)))[i]
  {
    ExamPage.CreditExamUnique(rows, userId, award, k);
    var after := ExamPage.CreditExam(rows, userId, award, ProfileOf(rows, userId));
    Listing.FilterOnlyOne(after, (p: Profile) => p.id == userId, k);
    AchievementsMonotone(ExamsTakenOf(Some(rows[k])), PointsOf(Some(rows[k])),
                         ExamsTakenOf(Some(after[k])), PointsOf(Some(after[k])), i);
  }
}
