/** The category trivia page: shaping the fetched questions and the round
    controller held in module-level `questions`, `current`, `score` and
    `timer`. The page is reduced to the state the controller reads and
    writes: whether the option buttons are enabled, what the feedback area
    says, the advance button, the timer text and the summary. */
module Quiz {
  import opened Wrappers
  import GameTools
  import Text
  import opened Rounding

  const SecondsPerQuestion := 30

  // ---------- Question shaping ----------

  /** One record of the trivia API's `results`, its texts already decoded. */
  datatype RawQuestion = RawQuestion(question: string, correctAnswer: string, incorrectAnswers: seq<string>)

  /** A question as the page renders it. */
  datatype Question = Question(question: string, correct: string, answers: seq<string>)

  /** The response to the trivia request. */
  datatype TriviaResponse =
    | HttpError(status: nat)
      /** A body whose `results` is `None` when the payload is missing or not an array. */
    | Body(results: Option<seq<RawQuestion>>)

  /** `q` was shaped from `raw`: same texts, and the answers are a permutation
      of the correct answer followed by the incorrect ones. */
  ghost predicate ShapedFrom(q: Question, raw: RawQuestion)
  {
    && q.question == raw.question
    && q.correct == raw.correctAnswer
    && multiset(q.answers) == multiset([raw.correctAnswer] + raw.incorrectAnswers)
  }

  lemma ShapedAnswers(q: Question, raw: RawQuestion)
    requires ShapedFrom(q, raw)
    ensures q.correct in q.answers
    ensures |q.answers| == 1 + |raw.incorrectAnswers|
  {
    assert raw.correctAnswer in multiset(q.answers);
  }

  /** The quiz page's own `shuffle`: the same Fisher–Yates swap loop, in place,
      returning the array it was given. */
  method Shuffle<T>(arr: array<T>, draws: seq<nat>) returns (r: array<T>)
    requires |draws| >= arr.Length
    modifies arr
    ensures r == arr
    ensures multiset(arr[..]) == old(multiset(arr[..]))
  {
    GameTools.ShuffleInPlace(arr, draws);
    r := arr;
  }

  /** The `map` callback of `fetchQuizData`. */
  method ShapeQuestion(raw: RawQuestion, draws: seq<nat>) returns (q: Question)
    requires |draws| >= 1 + |raw.incorrectAnswers|
    ensures ShapedFrom(q, raw)
    ensures q.correct in q.answers && |q.answers| == 1 + |raw.incorrectAnswers|
  {
    var all := [raw.correctAnswer] + raw.incorrectAnswers;
    var a := new string[|all|](i requires 0 <= i < |all| => all[i]);
    assert a[..] == all;
    var shuffled := Shuffle(a, draws);
    q := Question(raw.question, raw.correctAnswer, shuffled[..]);
    ShapedAnswers(q, raw);
  }

  /** `fetchQuizData` after the request: an HTTP failure throws, a payload
      without a `results` array gives no questions, otherwise every record is
      shaped, in order. `draws[i]` are the random draws of the i-th shuffle. */
  method FetchQuizData(response: TriviaResponse, draws: seq<seq<nat>>) returns (r: Result<seq<Question>>)
    requires response.Body? && response.results.Some? ==>
      |draws| >= |response.results.value|
      && forall i :: 0 <= i < |response.results.value| ==>
           |draws[i]| >= 1 + |response.results.value[i].incorrectAnswers|
    ensures response.HttpError? <==> r.Err?
    ensures response.Body? && response.results.None? ==> r == Ok([])
    ensures response.Body? && response.results.Some? ==>
      && r.Ok?
      && |r.value| == |response.results.value|
      && forall i :: 0 <= i < |r.value| ==> ShapedFrom(r.value[i], response.results.value[i])
  {
    if response.HttpError? {
      return Err("HTTP " + Text.NatToString(response.status));
    }
    if response.results.None? {
      return Ok([]);
    }
    var raws := response.results.value;
    var shaped: seq<Question> := [];
    var i := 0;
    while i < |raws|
      invariant 0 <= i <= |raws|
      invariant |shaped| == i
      invariant forall j :: 0 <= j < i ==> ShapedFrom(shaped[j], raws[j])
    {
      var q := ShapeQuestion(raws[i], draws[i]);
      shaped := shaped + [q];
      i := i + 1;
    }
    return Ok(shaped);
  }

  // ---------- Round controller ----------

  /** Where the page is. */
  datatype Phase =
    | Loading       // before `initQuiz` has run
    | NoCategory    // no `category` parameter: "Pick a category first."
    | LoadFailed    // the fetch threw or gave no questions
    | Playing       // a question is on screen
    | Summary       // the results are on screen

  /** What the advance button does when clicked. */
  datatype Action = GoNext | GoCategories

  datatype NextButton = Hidden | Shown(caption: string, action: Action)

  datatype Feedback =
    | Blank
    | Right
    | Wrong(correct: string)
    | TimesUp(correct: string)
    | Results(score: nat, total: nat, percent: int)

  /** How one question was resolved (kept for the proof only). */
  datatype Resolution = Answered(correct: bool) | TimedOut

  /** The number of correct picks among the resolutions. */
  function CorrectCount(rs: seq<Resolution>): (n: nat)
    ensures n <= |rs|
  {
    if rs == [] then 0
    else CorrectCount(rs[..|rs| - 1]) + (if rs[|rs| - 1] == Answered(true) then 1 else 0)
  }

  /** The advance label: "See Results" only on the last question. */
  function NextLabel(current: int, total: int): (caption: string)
    ensures caption == "See Results" <==> current >= total - 1
  {
    if current < total - 1 then "Next" else "See Results"
  }

  class QuizPage {
    var questions: seq<Question>
    var current: int
    var score: int
    /** `timer !== null`: an interval is live. */
    var timerLive: bool
    /** The `remain` closure variable of the live `startTimer` call. */
    var remain: int
    /** The text of the timer element. */
    var timerText: int
    /** The current question's option buttons are on screen and enabled. */
    var optionsEnabled: bool
    var phase: Phase
    var next: NextButton
    var feedback: Feedback
    /** One entry per question resolved so far, in question order. */
    ghost var resolutions: seq<Resolution>

    ghost predicate Valid()
      reads this
    {
      && score == CorrectCount(resolutions)
      && |resolutions| <= |questions|
      && (phase == Loading || phase == NoCategory || phase == LoadFailed ==>
            !timerLive && !optionsEnabled && resolutions == [])
      && (phase == NoCategory || phase == LoadFailed ==> next == Shown("Go to Categories", GoCategories))
      && (phase == Playing ==>
            && 0 <= current < |questions|
            && (optionsEnabled ==> |resolutions| == current && timerLive && remain > 0 && next == Hidden)
            && (!optionsEnabled ==>
                  (|resolutions| == current + 1 && !timerLive
                   && next == Shown(NextLabel(current, |questions|), GoNext))))
      && (phase == Summary ==>
            current == |questions| == |resolutions| && !timerLive && !optionsEnabled && next == Hidden)
    }

    /** The module's initial state, before `initQuiz`. */
    constructor ()
      ensures Valid() && phase == Loading
      ensures questions == [] && current == 0 && score == 0 && !timerLive
    {
      questions, current, score := [], 0, 0;
      timerLive, remain, timerText := false, 0, 0;
      optionsEnabled := false;
      phase, next, feedback := Loading, Hidden, Blank;
      resolutions := [];
    }

    /** `initQuiz`, given the `category` parameter and the outcome of
        `fetchQuizData` (an `Err` when it threw). */
    method Init(categoryId: Option<string>, fetched: Result<seq<Question>>)
      requires Valid() && phase == Loading
      modifies this
      ensures Valid()
      ensures (categoryId.None? || categoryId.value == "") ==> phase == NoCategory
      ensures categoryId.Some? && categoryId.value != "" ==>
        if fetched.Err? || fetched.value == [] then
          phase == LoadFailed && questions == []
        else
          && phase == Playing && questions == fetched.value
          && current == 0 && score == 0 && resolutions == []
          && optionsEnabled && timerLive && remain == SecondsPerQuestion
    {
      if categoryId.None? || categoryId.value == "" {
        phase := NoCategory;
        next := Shown("Go to Categories", GoCategories);
        return;
      }
      questions := if fetched.Err? then [] else fetched.value;
      if |questions| == 0 {
        phase := LoadFailed;
        next := Shown("Go to Categories", GoCategories);
        return;
      }
      current := 0;
      score := 0;
      RenderQuestion();
    }

    /** `resetState`: clear the interval, the options, the feedback and the
        advance button. */
    method ResetState()
      modifies this
      ensures !timerLive && !optionsEnabled && next == Hidden && feedback == Blank
      ensures questions == old(questions) && current == old(current) && score == old(score)
      ensures phase == old(phase) && resolutions == old(resolutions)
      ensures remain == old(remain) && timerText == old(timerText)
    {
      timerLive := false;
      optionsEnabled := false;
      feedback := Blank;
      next := Hidden;
    }

    /** `renderQuestion` followed by `startTimer(SECS_PER_Q)`: any previous
        interval is cleared first. */
    method RenderQuestion()
      requires 0 <= current < |questions| && |resolutions| == current
      requires score == CorrectCount(resolutions)
      modifies this
      ensures Valid() && phase == Playing
      ensures optionsEnabled && timerLive && remain == SecondsPerQuestion && timerText == SecondsPerQuestion
      ensures questions == old(questions) && current == old(current) && score == old(score)
      ensures resolutions == old(resolutions)
    {
      ResetState();
      phase := Playing;
      optionsEnabled := true;
      remain := SecondsPerQuestion;
      timerText := remain;
      timerLive := true;
    }

    /** A click on the `k`-th option button (`selectAnswer`). A disabled or
        absent button delivers no click, so nothing changes then. */
    method Click(k: nat)
      requires Valid()
      modifies this
      ensures Valid()
      ensures questions == old(questions) && current == old(current) && phase == old(phase)
      ensures !(old(phase) == Playing && old(optionsEnabled) && k < |questions[current].answers|) ==>
        && score == old(score) && resolutions == old(resolutions) && optionsEnabled == old(optionsEnabled)
        && feedback == old(feedback) && next == old(next)
        && timerLive == old(timerLive) && remain == old(remain) && timerText == old(timerText)
      ensures old(phase) == Playing && old(optionsEnabled) && k < |questions[current].answers| ==>
        var correct := questions[current].answers[k] == questions[current].correct;
        && score == old(score) + (if correct then 1 else 0)
        && resolutions == old(resolutions) + [Answered(correct)]
        && feedback == (if correct then Right else Wrong(questions[current].correct))
        && !optionsEnabled && !timerLive
        && next == Shown(NextLabel(current, |questions|), GoNext)
    {
      if !(phase == Playing && optionsEnabled && k < |questions[current].answers|) {
        return;
      }
      optionsEnabled := false;
      var q := questions[current];
      var correct := q.answers[k] == q.correct;
      if correct {
        score := score + 1;
        feedback := Right;
      } else {
        feedback := Wrong(q.correct);
      }
      resolutions := resolutions + [Answered(correct)];
      assert resolutions[..|resolutions| - 1] == old(resolutions);
      timerLive := false;
      next := Shown(NextLabel(current, |questions|), GoNext);
    }

    /** One firing of the `startTimer` interval: the timer text follows the
        countdown, and when it reaches zero the interval is cleared and the
        question is revealed (`autoRevealAndNext`). A timeout never scores. */
    method Tick()
      requires Valid()
      modifies this
      ensures Valid()
      ensures questions == old(questions) && current == old(current) && score == old(score)
      ensures phase == old(phase)
      ensures GameTools.Clock(remain, timerLive) == GameTools.FireStep(old(GameTools.Clock(remain, timerLive))).0
      ensures !old(timerLive) ==>
        && resolutions == old(resolutions) && timerText == old(timerText)
        && optionsEnabled == old(optionsEnabled) && feedback == old(feedback) && next == old(next)
      ensures old(timerLive) ==> timerText == remain
      ensures old(timerLive) && remain > 0 ==>
        && resolutions == old(resolutions) && optionsEnabled
        && feedback == old(feedback) && next == old(next)
      ensures old(timerLive) && remain <= 0 ==>
        && resolutions == old(resolutions) + [TimedOut]
        && !optionsEnabled && feedback == TimesUp(questions[current].correct)
        && next == Shown(NextLabel(current, |questions|), GoNext)
    {
      if !timerLive {
        return;
      }
      remain := remain - 1;
      timerText := remain;
      if remain <= 0 {
        timerLive := false;
        AutoReveal();
      }
    }

    /** `autoRevealAndNext`: disable the options, show the answer and the
        advance button. */
    method AutoReveal()
      requires phase == Playing && 0 <= current < |questions|
      requires optionsEnabled && |resolutions| == current && score == CorrectCount(resolutions)
      requires |resolutions| <= |questions| && !timerLive
      modifies this
      ensures questions == old(questions) && current == old(current) && score == old(score)
      ensures Valid()
      ensures resolutions == old(resolutions) + [TimedOut]
      ensures !optionsEnabled && feedback == TimesUp(questions[current].correct)
      ensures next == Shown(NextLabel(current, |questions|), GoNext)
      ensures phase == old(phase) && remain == old(remain) && timerText == old(timerText)
      ensures timerLive == old(timerLive)
    {
      optionsEnabled := false;
      feedback := TimesUp(questions[current].correct);
      resolutions := resolutions + [TimedOut];
      assert resolutions[..|resolutions| - 1] == old(resolutions);
      next := Shown(NextLabel(current, |questions|), GoNext);
    }

    /** A click on the advance button while it offers `nextQuestion`: move to
        the next question, or to the summary after the last one. The
        "Go to Categories" action leaves the page and is not modelled here. */
    method NextClick()
      requires Valid()
      modifies this
      ensures Valid()
      ensures questions == old(questions) && score == old(score) && resolutions == old(resolutions)
      ensures old(next) != Shown(NextLabel(old(current), |questions|), GoNext) || old(phase) != Playing ==>
        current == old(current) && phase == old(phase)
      ensures old(phase) == Playing && old(next) == Shown(NextLabel(old(current), |questions|), GoNext) ==>
        && current == old(current) + 1
        && (current < |questions| ==> phase == Playing && optionsEnabled && remain == SecondsPerQuestion)
        && (current == |questions| ==>
              (phase == Summary && feedback == Results(score, |questions|, RoundDiv(100 * score, |questions|))))
    {
      if !(phase == Playing && next == Shown(NextLabel(current, |questions|), GoNext)) {
        return;
      }
      current := current + 1;
      if current < |questions| {
        RenderQuestion();
      } else {
        ShowSummary();
      }
    }

    /** `showSummary`: clear the page and show `score/total (percent%)`. */
    method ShowSummary()
      requires current == |questions| == |resolutions| > 0 && score == CorrectCount(resolutions)
      requires phase == Playing
      modifies this
      ensures questions == old(questions) && current == old(current) && score == old(score)
      ensures Valid() && phase == Summary
      ensures feedback == Results(score, |questions|, RoundDiv(100 * score, |questions|))
      ensures resolutions == old(resolutions)
    {
      ResetState();
      phase := Summary;
      feedback := Results(score, |questions|, RoundDiv(100 * score, |questions|));
    }
  }

  /** On a page in any reachable state, the score never exceeds the number
      of questions resolved, which never exceeds the number of questions;
      so the percentage the summary shows lies between 0 and 100. */
  lemma ScoreBounded(p: QuizPage)
    requires p.Valid()
    ensures 0 <= p.score <= |p.resolutions| <= |p.questions|
    ensures |p.questions| > 0 ==> 0 <= RoundDiv(100 * p.score, |p.questions|) <= 100
  {
    if |p.questions| > 0 {
      RoundDivBounds(100 * p.score, |p.questions|, 100);
    }
  }

  /** Answering every question correctly scores the number of questions;
      letting every question time out scores zero. */
  lemma {:induction false} CountAllOrNothing(rs: seq<Resolution>)
    ensures (forall i :: 0 <= i < |rs| ==> rs[i] == Answered(true)) ==> CorrectCount(rs) == |rs|
    ensures (forall i :: 0 <= i < |rs| ==> rs[i] == TimedOut) ==> CorrectCount(rs) == 0
  {
    if rs != [] {
      CountAllOrNothing(rs[..|rs| - 1]);
    }
  }
}
