/**
 * The entities of the car-price quiz, shared by both versions of the page
 * script: the records the backend's interface declares (question, priced
 * option, guess), the four screens, and what an option button shows and
 * records.
 */
module Quiz {

  /** One priced answer to a question: `{id, price}`, both Candid `nat`. */
  datatype PriceOption = PriceOption(id: nat, price: nat)

  /** One round: the car, its picture, and the prices to choose from, in order. */
  datatype Question = Question(carId: nat, carName: string, carImage: string, options: seq<PriceOption>)

  /** What the player chose for one question. */
  datatype Guess = Guess(carId: nat, selectedOptionId: nat)

  /** The tally the backend returns for a submitted round. */
  datatype GameResult = GameResult(score: nat, maxScore: nat, message: string)

  /**
   * An option button as rendered: the price it shows (unformatted) and the
   * pair that its click handler passes to `selectOption`.
   */
  datatype Button = Button(carId: nat, optionId: nat, price: nat)

  /** The outcome of an awaited fetch: its value, or the error's message. */
  datatype Fetch<T> = Fetched(value: T) | FetchFailed(message: string)

  datatype Screen = Loading | Welcome | Game | Result

  /** The screens in the order the page's `screens` object lists them. */
  const Screens: seq<Screen> := [Loading, Welcome, Game, Result]

  /** Where screen `s` sits in `Screens`. */
  function ScreenIndex(s: Screen): (i: nat)
    ensures i < |Screens| && Screens[i] == s
  {
    match s
    case Loading => 0
    case Welcome => 1
    case Game => 2
    case Result => 3
  }

  /** The button rendered for option `o` of the question about car `carId`. */
  function ButtonFor(carId: nat, o: PriceOption): Button
  {
    Button(carId, o.id, o.price)
  }

  /** The buttons `renderQuestion` puts in the options container for `q`, one per option, in option order. */
  function ButtonsFor(q: Question): seq<Button>
  {
    seq(|q.options|, i requires 0 <= i < |q.options| => ButtonFor(q.carId, q.options[i]))
  }

  /** The guess a click on button `b` records. */
  function Recorded(b: Button): Guess
  {
    Guess(b.carId, b.optionId)
  }
}
