/**
 * The conversation state the workflow threads through one turn: the user's
 * utterance, the routing mode, the retrieved context, the application slots
 * and the turn's output. It is an immutable value; every node returns a new one.
 */
module AgentState {
  import opened Wrappers
  import opened Responses

  /** What the conversation is doing: answering questions, taking an application, or rejecting an off-topic message. */
  datatype Mode = QA | Application | Error

  /** The values `application_step` takes, in the order the application visits them. */
  datatype Step =
    | CreditScore
    | SubprimeConfirmation
    | HomeValue
    | DownPayment
    | Income
    | Debts
    | LoanTerm
    | CalculateRate
    | Ended

  /**
   * One turn's state. Every slot is optional, as in the source's state dictionary;
   * `debts`, the ratios and the rate are Python floats, modelled as exact reals.
   * The response is kept as a `Reply`, whose text `ReplyText` renders.
   */
  datatype State = State(
    userInput: string,
    mode: Mode,
    retrievedDocs: Option<seq<string>>,
    context: Option<string>,
    creditScore: Option<int>,
    homeValue: Option<int>,
    downPayment: Option<int>,
    loanAmount: Option<int>,
    income: Option<int>,
    debts: Option<real>,
    loanTerm: Option<int>,
    step: Option<Step>,
    subprimeContinue: Option<bool>,
    finalResponse: Option<Reply>,
    calculatedRate: Option<real>)

  /** The application data of a state: what a re-prompt must leave alone. */
  datatype Slots = Slots(
    creditScore: Option<int>,
    homeValue: Option<int>,
    downPayment: Option<int>,
    loanAmount: Option<int>,
    income: Option<int>,
    debts: Option<real>,
    loanTerm: Option<int>,
    subprimeContinue: Option<bool>,
    calculatedRate: Option<real>)

  function SlotsOf(s: State): Slots {
    Slots(s.creditScore, s.homeValue, s.downPayment, s.loanAmount, s.income, s.debts,
          s.loanTerm, s.subprimeContinue, s.calculatedRate)
  }

  /** Position of a step in the application; `Ended` comes last. */
  function Order(step: Step): nat {
    match step
    case CreditScore => 0
    case SubprimeConfirmation => 1
    case HomeValue => 2
    case DownPayment => 3
    case Income => 4
    case Debts => 5
    case LoanTerm => 6
    case CalculateRate => 7
    case Ended => 8
  }

  /** An application is under way: the turn resumes at a slot-filling step. */
  predicate InProgress(step: Option<Step>) {
    step.Some? && step.value != Ended
  }

  /** The application is under way and has got at least as far as `k`. */
  predicate Reached(step: Option<Step>, k: Step) {
    InProgress(step) && Order(step.value) >= Order(k)
  }

  /** The state the chat front end starts a session with: mode `qa`, every slot empty. */
  function Initial(): State {
    State("", QA, None, None, None, None, None, None, None, None, None, None, None, None, None)
  }
}
