/** The review screen of `QuizReview.jsx`: for every carried question a card
    marked correct or incorrect, each option coloured as the right answer,
    the user's wrong choice or neutral, and a hint with the right option for
    incorrect questions. */
module QuizReview {
  import opened Wrappers
  import opened QuizRunner

  datatype OptionClass = AnswerOption | WrongChoice | Neutral

  datatype QuestionCard = QuestionCard(correct: bool, options: seq<OptionClass>,
                                       showHint: bool, hintText: string)

  datatype ReviewScreen = ReviewScreen(score: nat, total: nat, cards: seq<QuestionCard>,
                                       backLink: string)

  /** `selectedAnswers[index]`, undefined for an unanswered question. */
  function UserChoice(answers: map<nat, int>, index: nat): Option<int> {
    if index in answers then Some(answers[index]) else None
  }

  /** The colour of option i: the right answer is green even when chosen. */
  function ClassifyOption(q: Question, choice: Option<int>, i: nat): (c: OptionClass)
    ensures c == AnswerOption <==> i == q.answer
    ensures c == WrongChoice <==> choice == Some(i as int) && i != q.answer
  {
    if i == q.answer then AnswerOption
    else if choice == Some(i) then WrongChoice
    else Neutral
  }

  function OptionClasses(q: Question, choice: Option<int>): (r: seq<OptionClass>)
    ensures |r| == |q.options|
  {
    seq(|q.options|, i requires 0 <= i < |q.options| => ClassifyOption(q, choice, i))
  }

  /** `q.options[q.answer]`; an answer outside the options renders as nothing. */
  function AnswerText(q: Question): (t: string)
    ensures 0 <= q.answer < |q.options| ==> t == q.options[q.answer]
    ensures t == "" || t in q.options
  {
    if 0 <= q.answer < |q.options| then q.options[q.answer] else ""
  }

  /** The card of question `index`: marked correct exactly when the chosen
      option is the answer, one colour per option, and the hint with the right
      option exactly on an incorrect card. */
  function Card(qs: seq<Question>, answers: map<nat, int>, index: nat): (c: QuestionCard)
    requires index < |qs|
    ensures c.correct <==> index in answers && answers[index] == qs[index].answer
    ensures |c.options| == |qs[index].options|
    ensures c.showHint <==> !c.correct
    ensures 0 <= qs[index].answer < |qs[index].options| ==> c.hintText == qs[index].options[qs[index].answer]
  {
    var correct := Correct(qs, answers, index);
    QuestionCard(correct, OptionClasses(qs[index], UserChoice(answers, index)),
                 !correct, AnswerText(qs[index]))
  }

  function Cards(qs: seq<Question>, answers: map<nat, int>): (r: seq<QuestionCard>)
    ensures |r| == |qs|
  {
    seq(|qs|, i requires 0 <= i < |qs| => Card(qs, answers, i))
  }

  /** The review route's render. Without navigation state the fields default
      to 0 / 0 and no questions, but the Back link reads
      `location.state.courseId` during the same render, which throws. */
  function RenderReview(state: Option<Handoff>): (r: Result<ReviewScreen, string>)
    ensures r.Ok? <==> state.Some? && state.value.ToReview?
    ensures r.Ok? ==>
      && r.value.score == state.value.score && r.value.total == state.value.total
      && |r.value.cards| == |state.value.questions|
      && (forall i :: 0 <= i < |r.value.cards| ==>
            r.value.cards[i].correct == Correct(state.value.questions, state.value.selectedAnswers, i))
      && r.value.backLink == "/courses/" + state.value.courseId
  {
    match state
    case None => Err("Cannot read properties of null (reading 'courseId')")
    case Some(ToResult(_, _, _, _)) => Err("Cannot read properties of undefined (reading 'map')")
    case Some(ToReview(_, score, total, answers, qs, courseId)) =>
      Ok(ReviewScreen(score, total, Cards(qs, answers), "/courses/" + courseId))
  }

  function CountCorrect(cards: seq<QuestionCard>): nat {
    if cards == [] then 0
    else CountCorrect(cards[..|cards| - 1]) + (if cards[|cards| - 1].correct then 1 else 0)
  }

  lemma {:induction false} CountCorrectPrefix(qs: seq<Question>, answers: map<nat, int>, n: nat)
    requires n <= |qs|
    ensures CountCorrect(Cards(qs, answers)[..n]) == ScoreUpTo(qs, answers, n)
  {
    if n > 0 {
      CountCorrectPrefix(qs, answers, n - 1);
      assert Cards(qs, answers)[..n][..n - 1] == Cards(qs, answers)[..n - 1];
    }
  }

  /** The number of cards shown correct is the score the exam computed. */
  lemma ReviewAgreesWithScore(qs: seq<Question>, answers: map<nat, int>)
    ensures CountCorrect(Cards(qs, answers)) == Score(qs, answers)
  {
    CountCorrectPrefix(qs, answers, |qs|);
    assert Cards(qs, answers)[..|qs|] == Cards(qs, answers);
  }

  /** A payload handed over by a confirmed attempt renders with exactly that
      attempt's score among its cards. */
  lemma ReviewOfConfirmedAttempt(path: string, qs: seq<Question>, answers: map<nat, int>, courseId: string)
    ensures var r := RenderReview(Some(ToReview(path, Score(qs, answers), |qs|, answers, qs, courseId)));
      r.Ok? && r.value.score == CountCorrect(r.value.cards) && r.value.total == |r.value.cards|
  {
    ReviewAgreesWithScore(qs, answers);
  }

  function CountWrong(cs: seq<OptionClass>): nat {
    if cs == [] then 0
    else CountWrong(cs[..|cs| - 1]) + (if cs[|cs| - 1] == WrongChoice then 1 else 0)
  }

  lemma {:induction false} CountWrongPrefix(q: Question, choice: Option<int>, n: nat)
    requires n <= |q.options|
    ensures CountWrong(OptionClasses(q, choice)[..n])
         == if choice.Some? && choice.value != q.answer && 0 <= choice.value < n then 1 else 0
  {
    if n > 0 {
      CountWrongPrefix(q, choice, n - 1);
      assert OptionClasses(q, choice)[..n][..n - 1] == OptionClasses(q, choice)[..n - 1];
    }
  }

  /** Per question exactly one option is red when the user chose an existing
      wrong option, and none otherwise (in particular none when correct). */
  lemma AtMostOneWrongChoice(qs: seq<Question>, answers: map<nat, int>, index: nat)
    requires index < |qs|
    ensures var card := Card(qs, answers, index);
      var c := UserChoice(answers, index);
      && CountWrong(card.options)
         == (if c.Some? && c.value != qs[index].answer && 0 <= c.value < |qs[index].options| then 1 else 0)
      && (card.correct ==> CountWrong(card.options) == 0)
  {
    var q := qs[index];
    CountWrongPrefix(q, UserChoice(answers, index), |q.options|);
    assert OptionClasses(q, UserChoice(answers, index))[..|q.options|]
        == OptionClasses(q, UserChoice(answers, index));
  }

  /** The right option is green whether or not it was chosen, a red option is
      always the user's own choice, and the hint is shown exactly for incorrect
      questions. */
  lemma CardColours(qs: seq<Question>, answers: map<nat, int>, index: nat, i: nat)
    requires index < |qs| && i < |qs[index].options|
    ensures var card := Card(qs, answers, index);
      && (card.options[i] == AnswerOption <==> i == qs[index].answer)
      && (card.options[i] == WrongChoice <==> index in answers && answers[index] == i != qs[index].answer)
      && (card.showHint <==> !(index in answers && answers[index] == qs[index].answer))
  {
  }
}
