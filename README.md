# Guess-the-car-price quiz: a Dafny model of the page controller

The repository's page script runs a four-screen quiz in the browser: it loads
a list of questions (a car, its picture, and priced options), shows them one
at a time, records one guess per question when the player clicks a price,
and finally shows a score. Two versions of the script exist and both are
modelled here:

- `assets/index.js` (module `LocalQuiz`): once the canister's HTTP address
  answers, the questions are a fixed list of four cars, the score is counted
  in the page against a fixed answer key, and the message reads
  "You got N out of 4 correct!". It also holds `encodeCandidQuery`, a constant
  Candid query message.
- `index.js` (module `RemoteQuiz`): the questions come from the backend's
  `getQuestions`, and the guesses are sent to `submitGuesses`, whose reply
  (score and message, or an error) decides the last screen.

Each script's module-level state (`questions`, `currentQuestionIndex`,
`userGuesses`) and the parts of the page it writes (which screen carries the
`active` class, whether the progress container shows, the car name and
picture, the option buttons, the score and message texts) form one class,
`Controller`, whose methods are the script's functions. The four screen flags
are a sequence that `ShowScreen` clears in a loop before setting one, so
"exactly one screen is active" is an invariant the methods keep (`Valid`),
together with "there are as many guesses as questions passed". `ViewCurrent`
says that buttons on the game screen belong to the current question; a click
(`ClickButton`) then records that question's car id and the clicked option's
id. The remote calls are inputs: the constructor takes the outcome of loading
the questions, and `RemoteQuiz.Controller.SubmissionSettled` takes the
outcome of `submitGuesses`. Module `Quiz` holds the shared records, module
`DecimalText` the decimal text of a number with its parser, and module
`Candid` a decoder for the start of a Candid message (magic "DIDL", LEB128
type-table length and argument count, as in the "Binary Format" part of the
Candid specification), against which the constant query is checked.

Note that `startGame` renders the question before it shows the game screen,
so with an empty question list the game screen ends up active: in
`assets/index.js` over the result that `finishGame` has just written
(`finishGame` is declared `async`, but its body has no `await`, so it runs to
the end before `startGame` continues); in `index.js` until the submission's
reply arrives.

The two scripts repeat the same screen and state handling word for word, so
the two `Controller` classes repeat it too: `IsActive`, `Valid`, `Displays`,
`ViewCurrent`, `ActiveScreen`, `ShowScreen` and `SelectOption` read the same
in both.

## Model

| member | source | states |
|---|---|---|
| `Quiz.ScreenIndex` | assets/index.js:11-16 | each of the four screens has its own place in the `screens` order |
| `LocalQuiz.EncodeCandidQuery` | assets/index.js:31-34 | the query is six bytes opening with ASCII "DIDL" and decodes as a Candid message with an empty type table, zero arguments and nothing after |
| `LocalQuiz.QueryIgnoresMethodName` | assets/index.js:31-34 | the method name does not change the query message |
| `Candid.ReadLeb128` | assets/index.js:33 | an LEB128 number read from a byte string consumes at least one byte and leaves a suffix of the input |
| `Candid.DecodeHeader` | assets/index.js:33 | a decodable header starts with the magic "DIDL" and two counts, and what follows is a suffix of the message |
| `LocalQuiz.AnswerKeyFitsMockQuestions` | assets/index.js:80-121 | the fixed question list has as many questions as the answer key has entries, and each key entry is an option id its question offers |
| `LocalQuiz.Score` | assets/index.js:217-224 | the local score is at most the number of guesses and at most the key's 4 entries; guesses past the key never score |
| `LocalQuiz.ScoreCountsMatches` | assets/index.js:217-224 | the score equals the number of positions i where guess i's option id equals key entry i |
| `LocalQuiz.ScoreGuesses` | assets/index.js:217-224 | the scoring loop computes exactly that score, bounded by the guess count and by 4 |
| `DecimalText.Decimal` | assets/index.js:226-227 | a number's text is a non-empty string of digits without a leading zero, one digit long exactly for numbers below 10 |
| `DecimalText.DecimalValueOfDecimal` | assets/index.js:226-227 | reading a number's text back gives the number |
| `DecimalText.DecimalInjective` | assets/index.js:226-227 | different scores are shown as different texts |
| `LocalQuiz.ResultMessageStatesScore` | assets/index.js:227 | the message "You got N out of 4 correct!" states exactly the score N, whatever the number of questions |
| `LocalQuiz.Controller.constructor` | assets/index.js:128-144 | after load and init: no guesses, index 0; on success the fixed questions and the welcome screen; on failure no questions, the loading screen, and "Error: " plus the message |
| `LocalQuiz.Controller.ActiveScreen` | assets/index.js:147-156 | in a valid state exactly one screen is active, and this is it |
| `LocalQuiz.Controller.ShowScreen` | assets/index.js:147-156 | afterwards exactly screen s is active and the progress container shows iff s is the game screen |
| `LocalQuiz.Controller.StartGame` | assets/index.js:159-165 | index 0 and no guesses whatever came before; the game screen ends up active with the first question shown, or, with no questions, over a score of 0 |
| `LocalQuiz.Controller.RenderQuestion` | assets/index.js:172-196 | past the last question it finishes the game; otherwise it shows the current question's name, picture and one button per option in option order, each recording the question's car id and the option's id |
| `LocalQuiz.Controller.SelectOption` | assets/index.js:198-210 | exactly one guess (carId, optionId) is appended, earlier guesses stay, and the index grows by one |
| `LocalQuiz.Controller.FinishGame` | assets/index.js:212-234 | the result screen shows the local score of the guesses and the message for that score |
| `LocalQuiz.Controller.ClickButton` | assets/index.js:184-209 | a click on button k of the shown question appends (that question's car id, option k's id), then shows the next question with the result texts kept or, after the last, the result with the car name, picture and buttons kept |
| `LocalQuiz.Controller.PlayRound` | assets/index.js:159-234 | a round of one click per question records one guess per question in order and shows its local score; for a non-empty question list it ends on the result screen, for an empty one on the game screen; the loading error text stays |
| `RemoteQuiz.Controller.constructor` | index.js:57-83 | after load and init: on success the fetched questions and the welcome screen; on failure no questions and the screen unchanged |
| `RemoteQuiz.Controller.ActiveScreen` | index.js:86-95 | in a valid state exactly one screen is active, and this is it |
| `RemoteQuiz.Controller.ShowScreen` | index.js:86-95 | afterwards exactly screen s is active and the progress container shows iff s is the game screen |
| `RemoteQuiz.Controller.StartGame` | index.js:98-104 | index 0 and no guesses whatever came before; the game screen ends up active, with the first question shown or, with no questions, an empty submission awaiting its reply |
| `RemoteQuiz.Controller.RenderQuestion` | index.js:111-138 | past the last question it starts the submission; otherwise it shows the current question with one button per option in order, each recording (car id, option id) |
| `RemoteQuiz.Controller.SelectOption` | index.js:140-155 | exactly one guess is appended at the end and the index grows by one, so guesses and index stay equal in number |
| `RemoteQuiz.Controller.FinishGame` | index.js:157-161 | the loading screen shows and the current guesses are what is submitted |
| `RemoteQuiz.Controller.SubmissionSettled` | index.js:160-169 | on success the result screen shows the reply's score and message; on failure the welcome screen returns |
| `RemoteQuiz.Controller.ClickButton` | index.js:127-154 | a click on button k appends (shown question's car id, option k's id), then shows the next question or, after the last, submits all guesses from the loading screen with the car name, picture and buttons kept |
| `RemoteQuiz.Controller.PlayRound` | index.js:98-169 | a round of one click per question submits one guess per question in order, and the reply decides between the result screen with its score and message and the welcome screen with the texts kept |

## Left out

- Network I/O (`callCanister`, the fetch in `getQuestionsViaProxy`, the agent and actor creation, `getQuestions`, `submitGuesses`): calls into the browser and the `@dfinity/agent` library; their outcomes are inputs to the constructors and to `RemoteQuiz.Controller.SubmissionSettled`.
- `encodeCandidUpdate`: a JSON serialisation passed through a text encoder, both library calls.
- `idlFactory`: a declaration read by the agent library; it only shapes the records here (ids and prices are natural numbers).
- `updateProgress`: a floating-point percentage (not a number when there are no questions) written to a style.
- Price formatting with `toLocaleString`: a button keeps the raw price.
- The 300 ms timer in `selectOption`: `ClickButton` runs the selection and the deferred `renderQuestion` with no other input between them; clicks on stale buttons inside that window, which could record more guesses than there are questions, are not modelled.
- `alert`, `console` output and the element handles: only the state the page shows is kept.
- The page's HTML is not part of this model: the loading screen is taken to be the active one on load, the progress container hidden, and the texts empty.
- `init` runs once on load, so each constructor models page load plus `init`, and the question list is fixed afterwards.
- The `catch` branch of `finishGame` in assets/index.js: nothing in its `try` block can fail in the model.
- A second `submitGuesses` started while one is pending: only one submission is tracked.
- `maxScore` of the backend's result: the page never shows it.
