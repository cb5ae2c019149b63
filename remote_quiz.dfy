/**
 * The version of the page script that talks to the backend canister
 * (index.js): the questions are whatever `getQuestions` returns, and the
 * guesses are submitted with `submitGuesses`, whose reply gives the score
 * and the message. Both remote calls are inputs here.
 */
module RemoteQuiz {
  import opened Wrappers
  import opened Quiz
  import opened DecimalText

  /** How the awaited `submitGuesses` call ends: with the backend's result, or with an error. */
  datatype SubmitOutcome = Scored(result: GameResult) | SubmitFailed(message: string)

  /** The page's module-level state and the parts of the page it drives. */
  class Controller {
    /** The question list, fixed once initialisation has run. */
    const questions: seq<Question>
    var currentQuestionIndex: nat
    var userGuesses: seq<Guess>
    /** Whether each screen carries the `active` class, in the order of `Screens`. */
    var active: seq<bool>
    /** Whether the progress container is displayed. */
    var progressVisible: bool
    var carName: string
    var carImage: string
    /** The buttons in the options container, in order. */
    var buttons: seq<Button>
    var scoreText: string
    var resultMessage: string
    /** The guesses of a `submitGuesses` call whose reply is still awaited, if any. */
    var submission: Option<seq<Guess>>

    predicate IsActive(s: Screen)
      reads this`active
    {
      ScreenIndex(s) < |active| && active[ScreenIndex(s)]
    }

    /**
     * Exactly one screen is active, the progress container shows with the
     * game screen only, there is one guess per question passed, and there
     * are no buttons when there are no questions.
     */
    ghost predicate Valid()
      reads this
    {
      && |active| == |Screens|
      && true in active
      && (forall s, t :: IsActive(s) && IsActive(t) ==> s == t)
      && (progressVisible <==> IsActive(Game))
      && |userGuesses| == currentQuestionIndex
      && (questions == [] ==> buttons == [])
    }

    /** The page shows question `q`. */
    ghost predicate Displays(q: Question)
      reads this
    {
      carName == q.carName && carImage == q.carImage && buttons == ButtonsFor(q)
    }

    /** Buttons on the game screen belong to the current question. */
    ghost predicate ViewCurrent()
      reads this
    {
      IsActive(Game) && buttons != [] ==>
        currentQuestionIndex < |questions| && Displays(questions[currentQuestionIndex])
    }

    /** The one active screen. */
    function ActiveScreen(): (s: Screen)
      reads this
      requires Valid()
      ensures forall t :: IsActive(t) <==> t == s
    {
      if IsActive(Loading) then Loading
      else if IsActive(Welcome) then Welcome
      else if IsActive(Game) then Game
      else Result
    }

    /**
     * Page load followed by `init`. `reply` is the outcome of creating the
     * actor and awaiting `getQuestions`: on success the questions are loaded
     * and the welcome screen shows; on failure nothing on the page changes.
     */
    constructor (reply: Fetch<seq<Question>>)
      ensures Valid() && ViewCurrent()
      ensures currentQuestionIndex == 0 && userGuesses == [] && buttons == [] && submission == None
      ensures reply.Fetched? ==> questions == reply.value && ActiveScreen() == Welcome
      ensures reply.FetchFailed? ==> questions == [] && ActiveScreen() == Loading
    {
      questions := if reply.Fetched? then reply.value else [];
      currentQuestionIndex := 0;
      userGuesses := [];
      active := [true, false, false, false];
      progressVisible := false;
      carName, carImage := "", "";
      buttons := [];
      scoreText, resultMessage := "", "";
      submission := None;
      new;
      assert IsActive(Loading);
      if reply.Fetched? {
        ShowScreen(Welcome);
      }
    }

    /** `showScreen(s)`: every screen loses `active`, then `s` gains it. */
    method ShowScreen(s: Screen)
      requires |active| == |Screens|
      modifies this`active, this`progressVisible
      ensures |active| == |Screens| && IsActive(s)
      ensures forall t :: IsActive(t) <==> t == s
      ensures progressVisible <==> s == Game
    {
      var i := 0;
      while i < |Screens|
        invariant i <= |Screens| && |active| == |Screens|
        invariant forall j :: 0 <= j < i ==> !active[j]
      {
        active := active[i := false];
        i := i + 1;
      }
      active := active[ScreenIndex(s) := true];
      progressVisible := s == Game;
      assert IsActive(s);
    }

    /**
     * `startGame`: a fresh round. The question is rendered before the game
     * screen is shown, so with no questions the guesses go out for scoring
     * while the game screen is shown until the reply arrives.
     */
    method StartGame()
      requires Valid()
      modifies this
      ensures Valid() && ViewCurrent()
      ensures currentQuestionIndex == 0 && userGuesses == []
      ensures ActiveScreen() == Game && progressVisible
      ensures scoreText == old(scoreText) && resultMessage == old(resultMessage)
      ensures questions != [] ==> Displays(questions[0]) && submission == old(submission)
      ensures questions == [] ==>
        carName == old(carName) && carImage == old(carImage) && buttons == old(buttons) && submission == Some([])
    {
      currentQuestionIndex := 0;
      userGuesses := [];
      RenderQuestion();
      ShowScreen(Game);
    }

    /**
     * `renderQuestion`: past the last question the game finishes; otherwise
     * the current question is shown with one button per option, in order.
     */
    method RenderQuestion()
      requires Valid()
      modifies this`carName, this`carImage, this`buttons, this`active, this`progressVisible, this`submission
      ensures Valid() && ViewCurrent()
      ensures currentQuestionIndex >= |questions| ==>
        ActiveScreen() == Loading && !progressVisible && submission == Some(userGuesses)
        && carName == old(carName) && carImage == old(carImage) && buttons == old(buttons)
      ensures currentQuestionIndex < |questions| ==>
        Displays(questions[currentQuestionIndex])
        && active == old(active) && progressVisible == old(progressVisible) && submission == old(submission)
    {
      if currentQuestionIndex >= |questions| {
        FinishGame();
        return;
      }
      var question := questions[currentQuestionIndex];
      carName := question.carName;
      carImage := question.carImage;
      buttons := [];
      var i := 0;
      while i < |question.options|
        invariant i <= |question.options|
        invariant buttons == ButtonsFor(question)[..i]
        modifies this`buttons
      {
        buttons := buttons + [ButtonFor(question.carId, question.options[i])];
        i := i + 1;
      }
    }

    /** `selectOption(carId, optionId)`: records the guess and moves to the next question. */
    method SelectOption(carId: nat, optionId: nat)
      requires Valid()
      modifies this`userGuesses, this`currentQuestionIndex
      ensures Valid()
      ensures userGuesses == old(userGuesses) + [Guess(carId, optionId)]
      ensures currentQuestionIndex == old(currentQuestionIndex) + 1
    {
      userGuesses := userGuesses + [Guess(carId, optionId)];
      currentQuestionIndex := currentQuestionIndex + 1;
    }

    /**
     * `finishGame` up to its `await`: the loading screen shows and the
     * guesses go to `submitGuesses`.
     */
    method FinishGame()
      requires Valid()
      modifies this`active, this`progressVisible, this`submission
      ensures Valid() && ActiveScreen() == Loading && !progressVisible
      ensures submission == Some(userGuesses)
    {
      ShowScreen(Loading);
      submission := Some(userGuesses);
    }

    /**
     * The rest of `finishGame`, once `submitGuesses` has settled: on success
     * the backend's score and message are shown on the result screen; on
     * failure the welcome screen returns and the texts stay as they were.
     */
    method SubmissionSettled(outcome: SubmitOutcome)
      requires Valid() && submission.Some?
      modifies this`active, this`progressVisible, this`scoreText, this`resultMessage, this`submission
      ensures Valid() && ViewCurrent() && submission == None && !progressVisible
      ensures outcome.Scored? ==>
        ActiveScreen() == Result
        && scoreText == Decimal(outcome.result.score) && resultMessage == outcome.result.message
      ensures outcome.SubmitFailed? ==>
        ActiveScreen() == Welcome && scoreText == old(scoreText) && resultMessage == old(resultMessage)
    {
      submission := None;
      match outcome
      case Scored(result) =>
        scoreText := Decimal(result.score);
        resultMessage := result.message;
        ShowScreen(Result);
      case SubmitFailed(_) =>
        ShowScreen(Welcome);
    }

    /**
     * A click on the `k`-th option button, followed by the deferred
     * `renderQuestion` before any other input: the guess recorded is the
     * shown question's car and that button's option.
     */
    method ClickButton(k: nat)
      requires Valid() && ViewCurrent() && IsActive(Game) && k < |buttons|
      modifies this
      ensures Valid() && ViewCurrent()
      ensures old(currentQuestionIndex) < |questions|
      ensures userGuesses == old(userGuesses) +
        [Guess(questions[old(currentQuestionIndex)].carId, questions[old(currentQuestionIndex)].options[k].id)]
      ensures currentQuestionIndex == old(currentQuestionIndex) + 1
      ensures currentQuestionIndex < |questions| ==>
        ActiveScreen() == Game && Displays(questions[currentQuestionIndex]) && submission == old(submission)
      ensures currentQuestionIndex == |questions| ==>
        ActiveScreen() == Loading && submission == Some(userGuesses)
        && carName == old(carName) && carImage == old(carImage) && buttons == old(buttons)
      ensures scoreText == old(scoreText) && resultMessage == old(resultMessage)
    {
      var b := buttons[k];
      assert Recorded(b) == Guess(questions[currentQuestionIndex].carId, questions[currentQuestionIndex].options[k].id);
      SelectOption(b.carId, b.optionId);
      RenderQuestion();
    }

    /**
     * A whole round as the page runs it: start, then on question `i` a click
     * on option `choices[i]`, then the reply to the submission. Exactly one
     * guess per question is submitted, in question order.
     */
    method PlayRound(choices: seq<nat>, outcome: SubmitOutcome)
      requires Valid()
      requires |choices| == |questions|
      requires forall i :: 0 <= i < |choices| ==> choices[i] < |questions[i].options|
      modifies this
      ensures Valid() && ViewCurrent() && submission == None
      ensures userGuesses ==
        seq(|questions|, i requires 0 <= i < |questions| => Guess(questions[i].carId, questions[i].options[choices[i]].id))
      ensures outcome.Scored? ==>
        ActiveScreen() == Result
        && scoreText == Decimal(outcome.result.score) && resultMessage == outcome.result.message
      ensures outcome.SubmitFailed? ==>
        ActiveScreen() == Welcome && scoreText == old(scoreText) && resultMessage == old(resultMessage)
    {
      StartGame();
      var i := 0;
      while i < |choices|
        invariant Valid() && ViewCurrent()
        invariant currentQuestionIndex == i <= |questions|
        invariant userGuesses ==
          seq(i, j requires 0 <= j < i => Guess(questions[j].carId, questions[j].options[choices[j]].id))
        invariant i < |questions| ==> IsActive(Game) && Displays(questions[i])
        invariant i == |questions| ==> submission == Some(userGuesses)
        invariant scoreText == old(scoreText) && resultMessage == old(resultMessage)
      {
        ClickButton(choices[i]);
        i := i + 1;
      }
      SubmissionSettled(outcome);
    }
  }
}
