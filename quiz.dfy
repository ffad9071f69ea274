/** The answer-collection state of the quiz page (static/js/quiz.js): the
    loaded questions, the answers given so far, the index of the question
    on screen and the submission lock. Rendering, the overlay, the request
    that submits the answers and the navigation after a successful submit
    are browser effects and stay outside; a failed submit is the event
    `SubmitFailed`. Option labels are cleaned by `Markers.StripMarkers`. */
module Quiz {
  import opened Wrappers
  import opened Text

  /** A loaded question. An empty `id` or `traitId` stands for a missing
      (falsy) field. */
  datatype Question = Question(id: string, traitId: string, title: string, options: seq<string>)

  /** One pushed answer: `{ id, trait_id, choice_index }`. */
  datatype Answer = Answer(id: string, traitId: string, choiceIndex: int)

  /** The page asks for ten questions and keeps at most that many. */
  const MaxQuestions: nat := 10

  /** The question shown when loading fails. */
  const BuiltIn: Question := Question(
    "q1", "energy", "初対面の多い場に行くときは？",
    ["できれば避けたい", "少し億劫", "どちらともいえない", "少し楽しみ", "とても楽しみ"])

  /** `q.id || \`q${idx + 1}\``. */
  function AnswerId(q: Question, k: nat): (r: string)
    ensures r != ""
    ensures q.id != "" ==> r == q.id
  {
    if q.id != "" then q.id else "q" + NatToString(k + 1)
  }

  /** `q.trait_id || "energy"`. */
  function AnswerTrait(q: Question): (r: string)
    ensures r != ""
    ensures q.traitId != "" ==> r == q.traitId
  {
    if q.traitId != "" then q.traitId else "energy"
  }

  /** The answer to question `k` of `qs`, recorded as chosen at `k`. */
  predicate AnswersQuestion(a: Answer, qs: seq<Question>, k: nat) {
    k < |qs| && a.id == AnswerId(qs[k], k) && a.traitId == AnswerTrait(qs[k])
  }

  /** The states the page can be in, as values. Unlocked, one answer has
      been pushed per question passed, and the index points at a question
      (or is 0 with nothing loaded). Locked, every question has its answer
      and the index stays on the last one. Each answer belongs to the
      question at its own position. */
  predicate Consistent(qs: seq<Question>, answers: seq<Answer>, idx: nat, submitting: bool) {
    (forall k :: 0 <= k < |answers| ==> AnswersQuestion(answers[k], qs, k))
    && (!submitting ==> |answers| == idx && (idx < |qs| || (idx == 0 && qs == [])))
    && (submitting ==> |qs| > 0 && idx == |qs| - 1 && |answers| == |qs|)
  }

  /** `QUESTIONS = (data.questions || []).slice(0, 10)`, or the built-in
      question when the request or its decoding failed (`None`). */
  function Loaded(fetched: Option<seq<Question>>): (qs: seq<Question>)
    ensures |qs| <= MaxQuestions
    ensures fetched.None? ==> qs == [BuiltIn]
    ensures fetched.Some? ==>
      |qs| == (if |fetched.value| < MaxQuestions then |fetched.value| else MaxQuestions)
      && qs == fetched.value[..|qs|]
  {
    match fetched
    case None => [BuiltIn]
    case Some(all) => if |all| <= MaxQuestions then all else all[..MaxQuestions]
  }

  class QuizPage {
    var questions: seq<Question>
    var answers: seq<Answer>
    var idx: nat
    var submitting: bool

    predicate Valid()
      reads this
    {
      Consistent(questions, answers, idx, submitting)
    }

    /** The script's initial values, before the first load. */
    constructor ()
      ensures Valid() && questions == [] && answers == [] && idx == 0 && !submitting
    {
      questions := [];
      answers := [];
      idx := 0;
      submitting := false;
    }

    /** `choose(choiceIndex)`: record an answer to the question on screen,
        then move on, or lock when it was the last one. Nothing happens
        while locked; with no question loaded the script fails reading
        `q.id` before it pushes anything. */
    method Choose(choiceIndex: int)
      requires Valid()
      modifies this
      ensures Valid()
      ensures questions == old(questions)
      ensures old(submitting) || old(idx) >= |questions| ==>
        answers == old(answers) && idx == old(idx) && submitting == old(submitting)
      ensures !old(submitting) && old(idx) < |questions| ==>
        answers == old(answers) + [Answer(AnswerId(questions[old(idx)], old(idx)), AnswerTrait(questions[old(idx)]), choiceIndex)]
      // a non-last answer moves on; the last one locks and stays put
      ensures !old(submitting) && old(idx) + 1 < |questions| ==> idx == old(idx) + 1 && !submitting
      ensures !old(submitting) && old(idx) + 1 == |questions| ==> idx == old(idx) && submitting
    {
      if submitting {
        return;
      }
      if idx >= |questions| {
        return;
      }
      var q := questions[idx];
      answers := answers + [Answer(AnswerId(q, idx), AnswerTrait(q), choiceIndex)];
      if idx + 1 >= |questions| {
        submitting := true;
      } else {
        idx := idx + 1;
      }
    }

    /** `loadQuestions()`: install the loaded questions (or the built-in
        one), then start over, unlocked. */
    method LoadQuestions(fetched: Option<seq<Question>>)
      modifies this
      ensures Valid()
      ensures questions == Loaded(fetched)
      ensures idx == 0 && answers == [] && !submitting
    {
      questions := Loaded(fetched);
      idx := 0;
      answers := [];
      submitting := false;
    }

    /** The error path of `submitAnswers()`: start over with the same
        questions, unlocked. */
    method SubmitFailed()
      modifies this
      ensures Valid()
      ensures questions == old(questions)
      ensures idx == 0 && answers == [] && !submitting
    {
      idx := 0;
      answers := [];
      submitting := false;
    }
  }
}
