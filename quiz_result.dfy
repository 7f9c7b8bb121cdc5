/** The result screen of `QuizResult.jsx`: a 60 % pass rule, a badge and a
    message chosen by it, and one star per question, filled up to the score. */
module QuizResult {
  import opened Wrappers
  import opened QuizRunner

  datatype Badge = PassBadge | FailBadge

  datatype ResultScreen = ResultScreen(score: nat, total: nat, passed: bool, badge: Badge,
                                       message: string, stars: seq<bool>, backLink: string)

  /** `(score / total) * 100 >= 60` in exact arithmetic. With total = 0 the
      percentage is NaN for score 0 (never passed) and Infinity otherwise. */
  function Passed(score: nat, total: nat): (r: bool)
    ensures total > 0 ==> (r <==> 5 * score >= 3 * total)
    ensures total == 0 ==> (r <==> score > 0)
  {
    if total == 0 then score > 0 else 100 * score >= 60 * total
  }

  /** The least passing score of a quiz: 60 % rounded up. */
  function PassMark(total: nat): nat {
    (3 * total + 4) / 5
  }

  /** For a non-empty quiz, passing means reaching the pass mark. */
  lemma PassedIffPassMark(score: nat, total: nat)
    requires total > 0
    ensures Passed(score, total) <==> score >= PassMark(total)
  {
    assert 100 * score >= 60 * total <==> 5 * score >= 3 * total;
  }

  /** A quiz with no question passes exactly for a positive score (the
      percentage is Infinity) and fails for 0 (NaN); so one handed over by the
      exam, whose score is at most its total, never passes. */
  lemma EmptyQuizPassRule(score: nat)
    ensures Passed(score, 0) <==> score > 0
  {
  }

  /** A better score on the same quiz never turns a pass into a fail. */
  lemma PassedMonotone(score: nat, better: nat, total: nat)
    requires Passed(score, total) && score <= better
    ensures Passed(better, total)
  {
  }

  lemma PassExamples()
    ensures Passed(3, 5) && !Passed(2, 4) && Passed(6, 10) && !Passed(5, 9) && !Passed(0, 0)
  {
  }

  /** The message under the score: the congratulation exactly for a pass. */
  function Message(passed: bool): (m: string)
    ensures m == "Congratulations! You passed 🎉" <==> passed
    ensures m == "Keep trying! You can do better 💪" <==> !passed
  {
    if passed then "Congratulations! You passed 🎉" else "Keep trying! You can do better 💪"
  }

  /** `[...Array(total)]`: star i is filled when i < score. */
  function Stars(score: nat, total: nat): (r: seq<bool>)
    ensures |r| == total
  {
    seq(total, i requires 0 <= i < total => i < score)
  }

  function CountFilled(stars: seq<bool>): nat {
    if stars == [] then 0 else CountFilled(stars[..|stars| - 1]) + (if stars[|stars| - 1] then 1 else 0)
  }

  lemma {:induction false} CountFilledPrefix(score: nat, total: nat, n: nat)
    requires n <= total
    ensures CountFilled(Stars(score, total)[..n]) == if score < n then score else n
  {
    if n > 0 {
      CountFilledPrefix(score, total, n - 1);
      assert Stars(score, total)[..n][..n - 1] == Stars(score, total)[..n - 1];
    }
  }

  /** Exactly `total` stars, of which min(score, total) are filled, all first. */
  lemma FilledStars(score: nat, total: nat)
    ensures |Stars(score, total)| == total
    ensures CountFilled(Stars(score, total)) == if score < total then score else total
    ensures forall i, j :: 0 <= i < j < total && Stars(score, total)[j] ==> Stars(score, total)[i]
  {
    CountFilledPrefix(score, total, total);
    assert Stars(score, total)[..total] == Stars(score, total);
  }

  /** The result route's render. The badge and the message follow the pass
      rule only. Without navigation state the defaults are 0 / 0 but the Back
      link reads `location.state.courseId`, which throws. */
  function RenderResult(state: Option<Handoff>): (r: Result<ResultScreen, string>)
    ensures r.Err? <==> state.None?
    ensures r.Ok? ==>
      && r.value.score == state.value.score && r.value.total == state.value.total
      && r.value.passed == Passed(state.value.score, state.value.total)
      && (r.value.badge == PassBadge <==> r.value.passed)
      && r.value.message == Message(r.value.passed)
      && |r.value.stars| == state.value.total
      && r.value.backLink == "/courses/" + state.value.courseId
  {
    match state
    case None => Err("Cannot read properties of null (reading 'courseId')")
    case Some(h) =>
      var passed := Passed(h.score, h.total);
      Ok(ResultScreen(h.score, h.total, passed, if passed then PassBadge else FailBadge,
                      Message(passed), Stars(h.score, h.total), "/courses/" + h.courseId))
  }

  /** A timed-out attempt renders its score with the pass rule and a star per
      question; the same answers score the same whichever way the attempt ended. */
  lemma ResultOfTimedOutAttempt(path: string, qs: seq<Question>, answers: map<nat, int>, courseId: string)
    ensures var r := RenderResult(Some(ToResult(path, Score(qs, answers), |qs|, courseId)));
      && r.Ok?
      && r.value.passed == (|qs| > 0 && 100 * Score(qs, answers) >= 60 * |qs|)
      && (r.value.badge == PassBadge <==> r.value.passed)
      && CountFilled(r.value.stars) == Score(qs, answers)
      && |r.value.stars| == |qs|
  {
    FilledStars(Score(qs, answers), |qs|);
  }
}
