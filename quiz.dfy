/** The timed quiz attempt of `Quiz.jsx`: a question index, an answer map,
    a 600-second countdown and a confirm-submit flag, driven by click handlers
    and a one-second tick. Completion hands a payload to the review route
    (manual submit) or to the result route (time out). */
module QuizRunner {
  import opened Wrappers

  /** A question of the course catalog: `answer` is the index of the right option. */
  datatype Question = Question(prompt: string, options: seq<string>, answer: int)

  /** The state carried by the navigation that ends an attempt. */
  datatype Handoff =
    | ToReview(path: string, score: nat, total: nat, selectedAnswers: map<nat, int>,
               questions: seq<Question>, courseId: string)
    | ToResult(path: string, score: nat, total: nat, courseId: string)

  const TimeBudget: int := 600

  /** Question i counts when the recorded choice is exactly its answer. */
  predicate Correct(qs: seq<Question>, answers: map<nat, int>, i: nat)
    requires i < |qs|
  {
    i in answers && answers[i] == qs[i].answer
  }

  /** The number of correct questions among the first n. */
  function ScoreUpTo(qs: seq<Question>, answers: map<nat, int>, n: nat): (r: nat)
    requires n <= |qs|
    ensures r <= n
  {
    if n == 0 then 0
    else ScoreUpTo(qs, answers, n - 1) + (if Correct(qs, answers, n - 1) then 1 else 0)
  }

  /** The score of an attempt: one point per correctly answered question. */
  function Score(qs: seq<Question>, answers: map<nat, int>): (r: nat)
    ensures r <= |qs|
  {
    ScoreUpTo(qs, answers, |qs|)
  }

  ghost function CorrectSet(qs: seq<Question>, answers: map<nat, int>, n: nat): set<nat>
    requires n <= |qs|
  {
    set i: nat | i < n && Correct(qs, answers, i)
  }

  lemma {:induction false} ScoreUpToCounts(qs: seq<Question>, answers: map<nat, int>, n: nat)
    requires n <= |qs|
    ensures ScoreUpTo(qs, answers, n) == |CorrectSet(qs, answers, n)|
  {
    if n > 0 {
      ScoreUpToCounts(qs, answers, n - 1);
      var prev := CorrectSet(qs, answers, n - 1);
      if Correct(qs, answers, n - 1) {
        assert CorrectSet(qs, answers, n) == prev + {n - 1};
      } else {
        assert CorrectSet(qs, answers, n) == prev;
      }
    }
  }

  /** The score is the number of indices whose recorded choice equals the answer. */
  lemma ScoreCountsCorrect(qs: seq<Question>, answers: map<nat, int>)
    ensures Score(qs, answers) == |set i: nat | i < |qs| && Correct(qs, answers, i)|
  {
    ScoreUpToCounts(qs, answers, |qs|);
  }

  /** Unanswered questions add nothing: the score is at most the number of answers. */
  lemma ScoreAtMostAnswered(qs: seq<Question>, answers: map<nat, int>)
    ensures Score(qs, answers) <= |answers|
  {
    ScoreCountsCorrect(qs, answers);
    var correct := set i: nat | i < |qs| && Correct(qs, answers, i);
    assert correct <= answers.Keys;
    SubsetCardinality(correct, answers.Keys);
  }

  lemma SubsetCardinality(a: set<nat>, b: set<nat>)
    requires a <= b
    ensures |a| <= |b|
  {
    assert b == a + (b - a);
  }

  /** An empty answer map scores zero. */
  lemma EmptyAnswersScoreZero(qs: seq<Question>)
    ensures Score(qs, map[]) == 0
  {
    ScoreAtMostAnswered(qs, map[]);
  }

  lemma {:induction false} ScoreUpToFull(qs: seq<Question>, answers: map<nat, int>, n: nat)
    requires n <= |qs|
    ensures ScoreUpTo(qs, answers, n) == n <==> forall i: nat :: i < n ==> Correct(qs, answers, i)
  {
    if n > 0 {
      ScoreUpToFull(qs, answers, n - 1);
    }
  }

  /** Full marks exactly when every question is answered correctly. */
  lemma FullMarksIffAllCorrect(qs: seq<Question>, answers: map<nat, int>)
    ensures Score(qs, answers) == |qs| <==> forall i: nat :: i < |qs| ==> Correct(qs, answers, i)
  {
    ScoreUpToFull(qs, answers, |qs|);
  }

  lemma {:induction false} ScoreUpToAfterSelect(qs: seq<Question>, answers: map<nat, int>, q: nat, o: int, n: nat)
    requires q < |qs| && n <= |qs|
    ensures ScoreUpTo(qs, answers[q := o], n) + (if q < n && Correct(qs, answers, q) then 1 else 0)
         == ScoreUpTo(qs, answers, n) + (if q < n && Correct(qs, answers[q := o], q) then 1 else 0)
  {
    if n > 0 {
      ScoreUpToAfterSelect(qs, answers, q, o, n - 1);
    }
  }

  /** Re-selecting on question q only changes whether q itself scores. */
  lemma SelectChangesOnlyThatQuestion(qs: seq<Question>, answers: map<nat, int>, q: nat, o: int)
    requires q < |qs|
    ensures forall j: nat :: j < |qs| && j != q ==> (Correct(qs, answers[q := o], j) <==> Correct(qs, answers, j))
    ensures Score(qs, answers[q := o]) + (if Correct(qs, answers, q) then 1 else 0)
         == Score(qs, answers) + (if o == qs[q].answer then 1 else 0)
  {
    ScoreUpToAfterSelect(qs, answers, q, o, |qs|);
  }

  /** The `forEach` counting pass of both completion paths. */
  method ComputeScore(qs: seq<Question>, answers: map<nat, int>) returns (score: nat)
    ensures score == Score(qs, answers)
  {
    score := 0;
    var index := 0;
    while index < |qs|
      invariant index <= |qs|
      invariant score == ScoreUpTo(qs, answers, index)
    {
      if index in answers && answers[index] == qs[index].answer {
        score := score + 1;
      }
      index := index + 1;
    }
  }

  function RoutePrefix(courseId: string, moduleId: string): string {
    "/courses/" + courseId + "/quiz/" + moduleId
  }

  class Attempt {
    const courseId: string
    const moduleId: string
    const questions: seq<Question>
    var currentIndex: nat
    var selectedAnswers: map<nat, int>
    var timeLeft: int
    var showConfirmModal: bool

    /** The question index stays on a question, the clock is within budget and
        answers are recorded for existing questions only. */
    ghost predicate Valid()
      reads this
    {
      && currentIndex < |questions|
      && 0 <= timeLeft <= TimeBudget
      && forall k :: k in selectedAnswers ==> k < |questions|
    }

    /** Mounting the exam page. The page reads `quiz.questions[0]` while
        rendering, so a quiz with no question is not a valid attempt. */
    constructor (courseId: string, moduleId: string, questions: seq<Question>)
      requires |questions| > 0
      ensures Valid()
      ensures this.courseId == courseId && this.moduleId == moduleId && this.questions == questions
      ensures currentIndex == 0 && selectedAnswers == map[] && timeLeft == TimeBudget
      ensures !showConfirmModal
    {
      this.courseId := courseId;
      this.moduleId := moduleId;
      this.questions := questions;
      currentIndex := 0;
      selectedAnswers := map[];
      timeLeft := TimeBudget;
      showConfirmModal := false;
    }

    /** Previous is shown except on the first question, and leads to a question. */
    predicate PreviousOffered()
      reads this
      ensures PreviousOffered() <==> currentIndex != 0
      ensures PreviousOffered() && Valid() ==> currentIndex - 1 < |questions|
    {
      currentIndex > 0
    }

    /** Next is shown except on the last question, and leads to a question. */
    predicate NextOffered()
      reads this
      ensures Valid() ==> (NextOffered() <==> currentIndex != |questions| - 1)
      ensures NextOffered() ==> currentIndex + 1 < |questions|
    {
      currentIndex < |questions| - 1
    }

    /** The Submit button replaces Next on the last question. */
    predicate SubmitOffered()
      reads this
      ensures Valid() ==> (SubmitOffered() <==> currentIndex == |questions| - 1)
    {
      !NextOffered()
    }

    /** Choosing an option of the shown question overwrites its entry only. */
    method SelectAnswer(optionIndex: int)
      requires Valid()
      modifies this
      ensures Valid()
      ensures selectedAnswers == old(selectedAnswers)[currentIndex := optionIndex]
      ensures currentIndex == old(currentIndex) && timeLeft == old(timeLeft)
      ensures showConfirmModal == old(showConfirmModal)
    {
      selectedAnswers := selectedAnswers[currentIndex := optionIndex];
    }

    /** Next: one question forward when the button is shown; otherwise nothing. */
    method Next()
      requires Valid()
      modifies this
      ensures Valid()
      ensures currentIndex == if old(NextOffered()) then old(currentIndex) + 1 else old(currentIndex)
      ensures selectedAnswers == old(selectedAnswers) && timeLeft == old(timeLeft)
      ensures showConfirmModal == old(showConfirmModal)
    {
      if NextOffered() {
        currentIndex := currentIndex + 1;
      }
    }

    /** Previous: one question back when the button is shown; otherwise nothing. */
    method Previous()
      requires Valid()
      modifies this
      ensures Valid()
      ensures currentIndex == if old(PreviousOffered()) then old(currentIndex) - 1 else old(currentIndex)
      ensures selectedAnswers == old(selectedAnswers) && timeLeft == old(timeLeft)
      ensures showConfirmModal == old(showConfirmModal)
    {
      if PreviousOffered() {
        currentIndex := currentIndex - 1;
      }
    }

    /** Submit only opens the confirmation modal, and only on the last question. */
    method RequestSubmit()
      requires Valid()
      modifies this
      ensures Valid()
      ensures showConfirmModal == (old(showConfirmModal) || old(SubmitOffered()))
      ensures currentIndex == old(currentIndex) && selectedAnswers == old(selectedAnswers)
      ensures timeLeft == old(timeLeft)
    {
      if SubmitOffered() {
        showConfirmModal := true;
      }
    }

    /** Cancel closes the modal; the answers and the question index are kept. */
    method CancelSubmit()
      requires Valid()
      modifies this
      ensures Valid() && !showConfirmModal
      ensures currentIndex == old(currentIndex) && selectedAnswers == old(selectedAnswers)
      ensures timeLeft == old(timeLeft)
    {
      showConfirmModal := false;
    }

    /** "Yes, Submit": closes the modal and hands the full attempt to the review route. */
    method ConfirmSubmit() returns (h: Option<Handoff>)
      requires Valid()
      modifies this
      ensures Valid() && !showConfirmModal
      ensures currentIndex == old(currentIndex) && selectedAnswers == old(selectedAnswers)
      ensures timeLeft == old(timeLeft)
      ensures !old(showConfirmModal) ==> h == None
      ensures old(showConfirmModal) ==>
        h == Some(ToReview(RoutePrefix(courseId, moduleId) + "/review",
                           Score(questions, selectedAnswers), |questions|,
                           selectedAnswers, questions, courseId))
    {
      if !showConfirmModal {
        return None;
      }
      showConfirmModal := false;
      var score := ComputeScore(questions, selectedAnswers);
      h := Some(ToReview(RoutePrefix(courseId, moduleId) + "/review", score, |questions|,
                         selectedAnswers, questions, courseId));
    }

    /** One second of the countdown. It runs whether or not the modal is open;
        at one second or less it stops at 0 and forces the result route,
        whose payload carries no answers. */
    method Tick() returns (h: Option<Handoff>)
      requires Valid()
      modifies this
      ensures Valid()
      ensures old(timeLeft) > 1 ==> timeLeft == old(timeLeft) - 1 && h == None
      ensures old(timeLeft) <= 1 ==>
        timeLeft == 0 &&
        h == Some(ToResult(RoutePrefix(courseId, moduleId) + "/result",
                           Score(questions, selectedAnswers), |questions|, courseId))
      ensures currentIndex == old(currentIndex) && selectedAnswers == old(selectedAnswers)
      ensures showConfirmModal == old(showConfirmModal)
    {
      if timeLeft <= 1 {
        var score := ComputeScore(questions, selectedAnswers);
        h := Some(ToResult(RoutePrefix(courseId, moduleId) + "/result", score, |questions|, courseId));
        timeLeft := 0;
      } else {
        h := None;
        timeLeft := timeLeft - 1;
      }
    }
  }

  /** The example attempts: answers [1,0,2] against answers [1,0,2] score 3 of 3;
      [1,1,2] scores 2; answering only question 0 correctly scores 1. */
  lemma ExampleScores()
    ensures var qs := [Question("a", ["x", "y"], 1), Question("b", ["x", "y"], 0), Question("c", ["x", "y", "z"], 2)];
      && Score(qs, map[0 := 1, 1 := 0, 2 := 2]) == 3
      && Score(qs, map[0 := 1, 1 := 1, 2 := 2]) == 2
      && Score(qs, map[0 := 1]) == 1
  {
  }

  /** A client of the attempt: the last answer given to a question wins, Next
      stops at the last question, and a tick at one second during the
      confirmation ends the attempt on the result route. */
  method ExampleSession() returns (h: Option<Handoff>)
    ensures h.Some? && h.value.ToResult? && h.value.score == 2 && h.value.total == 3
  {
    var qs := [Question("a", ["x", "y"], 1), Question("b", ["x", "y"], 0), Question("c", ["x", "y", "z"], 2)];
    var a := new Attempt("c1", "m1", qs);
    a.SelectAnswer(1);
    a.Next();
    a.SelectAnswer(2);
    a.SelectAnswer(0);
    assert a.selectedAnswers == map[0 := 1, 1 := 0];
    a.Next();
    a.Next();
    assert a.currentIndex == 2;
    a.RequestSubmit();
    assert a.showConfirmModal;
    while a.timeLeft > 1
      invariant a.Valid() && a.selectedAnswers == map[0 := 1, 1 := 0] && a.questions == qs
      decreases a.timeLeft
    {
      var none := a.Tick();
    }
    h := a.Tick();
    var m := map[0 := 1, 1 := 0];
    assert ScoreUpTo(qs, m, 1) == 1;
    assert ScoreUpTo(qs, m, 2) == 2;
    assert Score(qs, m) == ScoreUpTo(qs, m, 3) == 2;
  }
}
