/**
 * The stand-alone version of the page script (assets/index.js). Once the
 * canister's HTTP address has answered, the questions are a fixed list of
 * four cars, and the score is computed in the page against a fixed answer
 * key instead of being submitted.
 */
module LocalQuiz {
  import opened Wrappers
  import opened Quiz
  import opened DecimalText
  import Candid

  /**
   * `encodeCandidQuery(methodName)`: a Candid message with an empty type
   * table and no arguments, whichever method it is meant for.
   */
  function EncodeCandidQuery(methodName: string): (r: seq<Candid.byte>)
    ensures |r| == 6 && r[..4] == Candid.AsciiBytes("DIDL")
    ensures Candid.DecodeHeader(r) == Some(Candid.Header(0, []))
  {
    [68, 73, 68, 76, 0, 0]
  }

  /** The method name plays no part in the query message. */
  lemma QueryIgnoresMethodName(m1: string, m2: string)
    ensures EncodeCandidQuery(m1) == EncodeCandidQuery(m2)
  {
  }

  /** The question list that `getQuestionsViaProxy` returns once its fetch has succeeded. */
  const MockQuestions: seq<Question> := [
    Question(1, "Tesla Model 3", "https://images.unsplash.com/photo-1560958089-b8a1929cea89?w=800",
      [PriceOption(1, 35000), PriceOption(2, 40000), PriceOption(3, 45000)]),
    Question(2, "Ford Mustang", "https://images.unsplash.com/photo-1584345604476-8ec5f5d3e0c0?w=800",
      [PriceOption(1, 25000), PriceOption(2, 30000), PriceOption(3, 35000)]),
    Question(3, "Porsche 911", "https://images.unsplash.com/photo-1503376780353-7e6692767b70?w=800",
      [PriceOption(1, 90000), PriceOption(2, 100000), PriceOption(3, 110000)]),
    Question(4, "Toyota Corolla", "https://images.unsplash.com/photo-1621007947382-bb3c3994e3fb?w=800",
      [PriceOption(1, 18000), PriceOption(2, 20000), PriceOption(3, 22000)])
  ]

  /** The answer key of `finishGame`: the correct option id of each question, by position. */
  const CorrectAnswers: seq<nat> := [2, 2, 2, 2]

  /** Whether `q` offers an option with id `id`. */
  predicate Offers(q: Question, id: nat)
  {
    exists k :: 0 <= k < |q.options| && q.options[k].id == id
  }

  /** The answer key fits the fixed questions: one entry per question, each an option that question offers. */
  lemma AnswerKeyFitsMockQuestions()
    ensures |MockQuestions| == |CorrectAnswers|
    ensures forall i :: 0 <= i < |MockQuestions| ==> Offers(MockQuestions[i], CorrectAnswers[i])
  {
    forall i | 0 <= i < |MockQuestions|
      ensures Offers(MockQuestions[i], CorrectAnswers[i])
    {
      var q := MockQuestions[i];
      assert i == 0 || i == 1 || i == 2 || i == 3;
      assert |q.options| == 3 && q.options[1].id == 2 == CorrectAnswers[i];
    }
  }

  /**
   * Whether guess `i` agrees with the key. A position past the key's end
   * never does: there the key holds `undefined`, which equals no id.
   */
  predicate Hit(guesses: seq<Guess>, key: seq<nat>, i: nat)
    requires i < |guesses|
  {
    i < |key| && guesses[i].selectedOptionId == key[i]
  }

  /** The local score: how many guesses agree with the key at their position. */
  function Score(guesses: seq<Guess>, key: seq<nat>): (n: nat)
    ensures n <= |guesses| && n <= |key|
    decreases |guesses|
  {
    if guesses == [] then 0
    else Score(guesses[..|guesses| - 1], key) + (if Hit(guesses, key, |guesses| - 1) then 1 else 0)
  }

  /** The positions at which a guess agrees with the key. */
  function Matches(guesses: seq<Guess>, key: seq<nat>): set<nat>
  {
    set i: nat | i < |guesses| && Hit(guesses, key, i)
  }

  /** The score is the number of positions at which the guess agrees with the key. */
  lemma {:induction false} ScoreCountsMatches(guesses: seq<Guess>, key: seq<nat>)
    ensures Score(guesses, key) == |Matches(guesses, key)|
    decreases |guesses|
  {
    if guesses != [] {
      var n := |guesses| - 1;
      var front := guesses[..n];
      ScoreCountsMatches(front, key);
      assert forall i: nat :: i < n ==> Hit(guesses, key, i) == Hit(front, key, i);
      if Hit(guesses, key, n) {
        assert Matches(guesses, key) == Matches(front, key) + {n};
      } else {
        assert Matches(guesses, key) == Matches(front, key);
      }
    }
  }

  /** The scoring loop of `finishGame`, over the fixed answer key. */
  method ScoreGuesses(guesses: seq<Guess>) returns (score: nat)
    ensures score == Score(guesses, CorrectAnswers)
    ensures score <= |guesses| && score <= |CorrectAnswers|
  {
    score := 0;
    var i := 0;
    while i < |guesses|
      invariant i <= |guesses|
      invariant score == Score(guesses[..i], CorrectAnswers)
    {
      if i < |CorrectAnswers| && guesses[i].selectedOptionId == CorrectAnswers[i] {
        score := score + 1;
      }
      assert guesses[..i + 1][..i] == guesses[..i];
      i := i + 1;
    }
    assert guesses[..i] == guesses;
  }

  const MessagePrefix: string := "You got "
  const MessageSuffix: string := " out of 4 correct!"

  /** The result message; it says "out of 4" whatever the number of questions. */
  function ResultMessage(score: nat): string
  {
    MessagePrefix + Decimal(score) + MessageSuffix
  }

  /** The score a result message states, if the text has the message's shape. */
  function ScoreInMessage(msg: string): Option<nat>
  {
    if |msg| < |MessagePrefix| + |MessageSuffix| then None
    else
      var digits := msg[|MessagePrefix|..|msg| - |MessageSuffix|];
      if msg[..|MessagePrefix|] == MessagePrefix && msg[|msg| - |MessageSuffix|..] == MessageSuffix
         && digits != [] && AllDigits(digits)
      then Some(DecimalValue(digits))
      else None
  }

  /** The result message states exactly the score it was made from. */
  lemma ResultMessageStatesScore(score: nat)
    ensures ScoreInMessage(ResultMessage(score)) == Some(score)
  {
    var d := Decimal(score);
    var msg := ResultMessage(score);
    assert msg[..|MessagePrefix|] == MessagePrefix;
    assert msg[|MessagePrefix|..|msg| - |MessageSuffix|] == d;
    assert msg[|msg| - |MessageSuffix|..] == MessageSuffix;
    DecimalValueOfDecimal(score);
  }

  /** The page's module-level state and the parts of the page it drives. */
  class Controller {
    /** The question list, fixed once initialisation has run. */
    const questions: seq<Question>
    var currentQuestionIndex: nat
    var userGuesses: seq<Guess>
    /** Whether each screen carries the `active` class, in the order of `Screens`. */
    var active: seq<bool>
    /** Whether the progress container is displayed. */
    var progressVisible: bool
    var carName: string
    var carImage: string
    /** The buttons in the options container, in order. */
    var buttons: seq<Button>
    var scoreText: string
    var resultMessage: string
    /** The text that replaced the loading screen's paragraph, if loading failed. */
    var loadError: Option<string>

    predicate IsActive(s: Screen)
      reads this`active
    {
      ScreenIndex(s) < |active| && active[ScreenIndex(s)]
    }

    /**
     * Exactly one screen is active, the progress container shows with the
     * game screen only, there is one guess per question passed, and there
     * are no buttons when there are no questions.
     */
    ghost predicate Valid()
      reads this
    {
      && |active| == |Screens|
      && true in active
      && (forall s, t :: IsActive(s) && IsActive(t) ==> s == t)
      && (progressVisible <==> IsActive(Game))
      && |userGuesses| == currentQuestionIndex
      && (questions == [] ==> buttons == [])
    }

    /** The page shows question `q`. */
    ghost predicate Displays(q: Question)
      reads this
    {
      carName == q.carName && carImage == q.carImage && buttons == ButtonsFor(q)
    }

    /** Buttons on the game screen belong to the current question. */
    ghost predicate ViewCurrent()
      reads this
    {
      IsActive(Game) && buttons != [] ==>
        currentQuestionIndex < |questions| && Displays(questions[currentQuestionIndex])
    }

    /** The one active screen. */
    function ActiveScreen(): (s: Screen)
      reads this
      requires Valid()
      ensures forall t :: IsActive(t) <==> t == s
    {
      if IsActive(Loading) then Loading
      else if IsActive(Welcome) then Welcome
      else if IsActive(Game) then Game
      else Result
    }

    /**
     * Page load followed by `init`. `reply` is the outcome of the fetch in
     * `getQuestionsViaProxy`: on success the fixed questions are loaded and
     * the welcome screen shows; on failure the loading screen stays, showing
     * the error.
     */
    constructor (reply: Fetch<string>)
      ensures Valid() && ViewCurrent()
      ensures currentQuestionIndex == 0 && userGuesses == [] && buttons == []
      ensures reply.Fetched? ==> questions == MockQuestions && ActiveScreen() == Welcome && loadError == None
      ensures reply.FetchFailed? ==>
        questions == [] && ActiveScreen() == Loading && loadError == Some("Error: " + reply.message)
    {
      questions := if reply.Fetched? then MockQuestions else [];
      currentQuestionIndex := 0;
      userGuesses := [];
      active := [true, false, false, false];
      progressVisible := false;
      carName, carImage := "", "";
      buttons := [];
      scoreText, resultMessage := "", "";
      loadError := if reply.FetchFailed? then Some("Error: " + reply.message) else None;
      new;
      assert IsActive(Loading);
      if reply.Fetched? {
        ShowScreen(Welcome);
      }
    }

    /** `showScreen(s)`: every screen loses `active`, then `s` gains it. */
    method ShowScreen(s: Screen)
      requires |active| == |Screens|
      modifies this`active, this`progressVisible
      ensures |active| == |Screens| && IsActive(s)
      ensures forall t :: IsActive(t) <==> t == s
      ensures progressVisible <==> s == Game
    {
      var i := 0;
      while i < |Screens|
        invariant i <= |Screens| && |active| == |Screens|
        invariant forall j :: 0 <= j < i ==> !active[j]
      {
        active := active[i := false];
        i := i + 1;
      }
      active := active[ScreenIndex(s) := true];
      progressVisible := s == Game;
      assert IsActive(s);
    }

    /**
     * `startGame`: a fresh round. The question is rendered before the game
     * screen is shown, so with no questions the game screen ends up active
     * over the result that `finishGame` has just written.
     */
    method StartGame()
      requires Valid()
      modifies this
      ensures Valid() && ViewCurrent()
      ensures currentQuestionIndex == 0 && userGuesses == []
      ensures ActiveScreen() == Game && progressVisible
      ensures questions != [] ==>
        Displays(questions[0]) && scoreText == old(scoreText) && resultMessage == old(resultMessage)
      ensures questions == [] ==>
        carName == old(carName) && carImage == old(carImage) && buttons == old(buttons)
        && scoreText == Decimal(0) && resultMessage == ResultMessage(0)
      ensures loadError == old(loadError)
    {
      currentQuestionIndex := 0;
      userGuesses := [];
      RenderQuestion();
      ShowScreen(Game);
    }

    /**
     * `renderQuestion`: past the last question the game finishes; otherwise
     * the current question is shown with one button per option, in order.
     */
    method RenderQuestion()
      requires Valid()
      modifies this`carName, this`carImage, this`buttons, this`active, this`progressVisible,
        this`scoreText, this`resultMessage
      ensures Valid() && ViewCurrent()
      ensures currentQuestionIndex >= |questions| ==>
        ActiveScreen() == Result && !progressVisible
        && scoreText == Decimal(Score(userGuesses, CorrectAnswers))
        && resultMessage == ResultMessage(Score(userGuesses, CorrectAnswers))
        && carName == old(carName) && carImage == old(carImage) && buttons == old(buttons)
      ensures currentQuestionIndex < |questions| ==>
        Displays(questions[currentQuestionIndex])
        && active == old(active) && progressVisible == old(progressVisible)
        && scoreText == old(scoreText) && resultMessage == old(resultMessage)
    {
      if currentQuestionIndex >= |questions| {
        FinishGame();
        return;
      }
      var question := questions[currentQuestionIndex];
      carName := question.carName;
      carImage := question.carImage;
      buttons := [];
      var i := 0;
      while i < |question.options|
        invariant i <= |question.options|
        invariant buttons == ButtonsFor(question)[..i]
        modifies this`buttons
      {
        buttons := buttons + [ButtonFor(question.carId, question.options[i])];
        i := i + 1;
      }
    }

    /** `selectOption(carId, optionId)`: records the guess and moves to the next question. */
    method SelectOption(carId: nat, optionId: nat)
      requires Valid()
      modifies this`userGuesses, this`currentQuestionIndex
      ensures Valid()
      ensures userGuesses == old(userGuesses) + [Guess(carId, optionId)]
      ensures currentQuestionIndex == old(currentQuestionIndex) + 1
    {
      userGuesses := userGuesses + [Guess(carId, optionId)];
      currentQuestionIndex := currentQuestionIndex + 1;
    }

    /**
     * `finishGame`: scores the guesses against the answer key and shows the
     * result screen (the loading screen it shows first is replaced at once,
     * since nothing here waits).
     */
    method FinishGame()
      requires Valid()
      modifies this`active, this`progressVisible, this`scoreText, this`resultMessage
      ensures Valid() && ActiveScreen() == Result && !progressVisible
      ensures scoreText == Decimal(Score(userGuesses, CorrectAnswers))
      ensures resultMessage == ResultMessage(Score(userGuesses, CorrectAnswers))
    {
      ShowScreen(Loading);
      var score := ScoreGuesses(userGuesses);
      scoreText := Decimal(score);
      resultMessage := ResultMessage(score);
      ShowScreen(Result);
    }

    /**
     * A click on the `k`-th option button, followed by the deferred
     * `renderQuestion` before any other input: the guess recorded is the
     * shown question's car and that button's option.
     */
    method ClickButton(k: nat)
      requires Valid() && ViewCurrent() && IsActive(Game) && k < |buttons|
      modifies this
      ensures Valid() && ViewCurrent()
      ensures old(currentQuestionIndex) < |questions|
      ensures userGuesses == old(userGuesses) +
        [Guess(questions[old(currentQuestionIndex)].carId, questions[old(currentQuestionIndex)].options[k].id)]
      ensures currentQuestionIndex == old(currentQuestionIndex) + 1
      ensures currentQuestionIndex < |questions| ==>
        ActiveScreen() == Game && Displays(questions[currentQuestionIndex])
        && scoreText == old(scoreText) && resultMessage == old(resultMessage)
      ensures currentQuestionIndex == |questions| ==>
        ActiveScreen() == Result && scoreText == Decimal(Score(userGuesses, CorrectAnswers))
        && resultMessage == ResultMessage(Score(userGuesses, CorrectAnswers))
        && carName == old(carName) && carImage == old(carImage) && buttons == old(buttons)
      ensures loadError == old(loadError)
    {
      var b := buttons[k];
      assert Recorded(b) == Guess(questions[currentQuestionIndex].carId, questions[currentQuestionIndex].options[k].id);
      SelectOption(b.carId, b.optionId);
      RenderQuestion();
    }

    /**
     * A whole round as the page runs it: start, then on question `i` a click
     * on option `choices[i]`. One guess per question is submitted to scoring.
     */
    method PlayRound(choices: seq<nat>)
      requires Valid()
      requires |choices| == |questions|
      requires forall i :: 0 <= i < |choices| ==> choices[i] < |questions[i].options|
      modifies this
      ensures Valid() && ViewCurrent()
      ensures userGuesses ==
        seq(|questions|, i requires 0 <= i < |questions| => Guess(questions[i].carId, questions[i].options[choices[i]].id))
      ensures questions != [] ==> ActiveScreen() == Result
      ensures questions == [] ==> ActiveScreen() == Game
      ensures scoreText == Decimal(Score(userGuesses, CorrectAnswers))
      ensures resultMessage == ResultMessage(Score(userGuesses, CorrectAnswers))
      ensures loadError == old(loadError)
    {
      StartGame();
      var i := 0;
      while i < |choices|
        invariant Valid() && ViewCurrent()
        invariant currentQuestionIndex == i <= |questions|
        invariant userGuesses ==
          seq(i, j requires 0 <= j < i => Guess(questions[j].carId, questions[j].options[choices[j]].id))
        invariant i < |questions| ==> IsActive(Game) && Displays(questions[i])
        invariant questions != [] && i == |questions| ==> ActiveScreen() == Result
        invariant i == |questions| ==> scoreText == Decimal(Score(userGuesses, CorrectAnswers))
        invariant i == |questions| ==> resultMessage == ResultMessage(Score(userGuesses, CorrectAnswers))
        invariant questions == [] ==> ActiveScreen() == Game
        invariant loadError == old(loadError)
      {
        ClickButton(choices[i]);
        i := i + 1;
      }
    }
  }
}
