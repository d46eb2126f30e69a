/**
 * The application as a state machine over turns: which steps a turn can move
 * to, what a re-prompt leaves alone, the invariant the slots keep from step to
 * step, and what a turn outside an application does.
 */
module StateMachine {
  import opened Wrappers
  import opened Text
  import opened Numbers
  import opened AgentState
  import opened Responses
  import opened Extraction
  import opened RateCalculator
  import opened RateTool
  import Nodes
  import opened Workflow

  /** The steps that can follow step `k` after one turn: its own step again (a re-prompt) or the next one. */
  function Successors(k: Step): (r: set<Step>)
    ensures forall j :: j in r ==> Order(k) <= Order(j)
  {
    match k
    case CreditScore => {CreditScore, SubprimeConfirmation, HomeValue}
    case SubprimeConfirmation => {HomeValue, Ended}
    case HomeValue => {HomeValue, DownPayment}
    case DownPayment => {DownPayment, Income}
    case Income => {Income, Debts}
    case Debts => {Debts, LoanTerm}
    case LoanTerm => {LoanTerm, CalculateRate}
    case CalculateRate => {Ended}
    case Ended => {}
  }

  /** The steps that ask for one figure and ask again when the answer is unusable. */
  predicate SlotStep(k: Step) {
    k in {CreditScore, HomeValue, DownPayment, Income, Debts, LoanTerm}
  }

  /** An application turn moves along the table: never backwards, and from the rate step always to the end. */
  lemma TurnFollowsTable(s: State, r: Reading, tool: Tool)
    requires TurnDefined(s, r) && InProgress(s.step)
    ensures var t := Turn(s, r, tool);
      t.step.Some? && t.step.value in Successors(s.step.value) && Order(s.step.value) <= Order(t.step.value)
  {
    var t := Turn(s, r, tool);
    assert t.step.Some? && t.step.value in Successors(s.step.value);
  }

  /** Only the slot-filling steps can stay where they are; the subprime answer and the rate step always move on. */
  lemma OnlySlotStepsRepeat(s: State, r: Reading, tool: Tool)
    requires TurnDefined(s, r) && InProgress(s.step)
    ensures Turn(s, r, tool).step == s.step ==> SlotStep(s.step.value)
  {
    TurnFollowsTable(s, r, tool);
  }

  /**
   * A turn that stays at its step has re-prompted: no slot changed, only the
   * response did. Nothing else in the state changes either.
   */
  lemma RepromptKeepsSlots(s: State, r: Reading, tool: Tool)
    requires TurnDefined(s, r) && InProgress(s.step)
    ensures var t := Turn(s, r, tool);
      t.step == s.step ==> t == s.(finalResponse := t.finalResponse)
  {
    var t := Turn(s, r, tool);
    if t.step == s.step {
      assert SlotsOf(t) == SlotsOf(s);
    }
  }

  /** Asking again is idempotent: the same answer to a re-prompt re-prompts again and changes nothing more. */
  lemma RepromptIdempotent(s: State, o: Replies, tool: Tool)
    requires TurnDefined(s, Read(s, o)) && InProgress(s.step)
    requires Turn(s, Read(s, o), tool).step == s.step
    ensures var t := Turn(s, Read(s, o), tool);
      TurnDefined(t, Read(t, o)) && Turn(t, Read(t, o), tool) == t
  {
    var r := Read(s, o);
    RepromptKeepsSlots(s, r, tool);
    var t := Turn(s, r, tool);
    assert Read(t, o) == r;
  }

  /**
   * The subprime answer is read from the utterance itself: `yes`, `y`,
   * `continue` or `proceed`, in any letter case and spacing, continues to the
   * home value; anything else ends the application. The choice is recorded.
   */
  lemma SubprimeTurn(s: State, o: Replies, tool: Tool)
    requires s.step == Some(SubprimeConfirmation)
    ensures var t := Turn(s, Read(s, o), tool);
      && t.subprimeContinue == Some(Lower(Strip(s.userInput)) in Nodes.Affirmatives)
      && t.step == Some(if Lower(Strip(s.userInput)) in Nodes.Affirmatives then HomeValue else Ended)
  {
  }

  /**
   * The loan-term turn stores the term the utterance names, 15 winning over 30,
   * and otherwise asks again; a stored term is always 15 or 30.
   */
  lemma LoanTermTurn(s: State, o: Replies, tool: Tool)
    requires s.step == Some(LoanTerm) && TurnDefined(s, Read(s, o))
    ensures var t := Turn(s, Read(s, o), tool);
      && (Contains(Strip(s.userInput), "15") ==> t.loanTerm == Some(15))
      && (!Contains(Strip(s.userInput), "15") && Contains(Strip(s.userInput), "30") ==> t.loanTerm == Some(30))
      && (!Contains(Strip(s.userInput), "15") && !Contains(Strip(s.userInput), "30") ==> t.step == Some(LoanTerm))
      && (t.step == Some(Step.CalculateRate) ==> t.loanTerm == Some(15) || t.loanTerm == Some(30))
  {
    var choice := Nodes.TermChoice(s.userInput);
    assert Turn(s, Read(s, o), tool) == Nodes.ProcessLoanTerm(s, choice);
  }

  /**
   * The slots each step can count on: everything asked before it, with the loan
   * amount the home value less the down payment, and a term of 15 or 30 years
   * once the rate is next.
   */
  predicate Consistent(s: State) {
    && (Reached(s.step, SubprimeConfirmation) ==> s.creditScore.Some?)
    && (Reached(s.step, DownPayment) ==> s.homeValue.Some?)
    && (Reached(s.step, Income) ==>
          && s.homeValue.Some? && s.downPayment.Some?
          && s.loanAmount == Some(s.homeValue.value - s.downPayment.value))
    && (Reached(s.step, Debts) ==> s.income.Some?)
    && (Reached(s.step, LoanTerm) ==> s.debts.Some?)
    && (Reached(s.step, Step.CalculateRate) ==> s.loanTerm == Some(15) || s.loanTerm == Some(30))
  }

  /** A session starts consistent. */
  lemma InitialConsistent()
    ensures Consistent(Initial()) && !InProgress(Initial().step)
  {
  }

  /**
   * In a consistent state the turn can only fail by dividing by zero: with a
   * non-zero home value and income it is defined whatever the replies.
   */
  lemma ConsistentDefined(s: State, r: Reading)
    requires Consistent(s)
    requires s.homeValue.Some? ==> s.homeValue.value != 0
    requires s.income.Some? ==> s.income.value != 0
    ensures TurnDefined(s, r)
  {
    match s.step
    case Some(DownPayment) =>
    case Some(LoanTerm) =>
    case Some(CalculateRate) =>
    case _ =>
  }

  /** A reading of the term names one of the two terms offered, if any. */
  predicate TermReadable(r: Reading) {
    r.term.Some? ==> r.term.value == 15 || r.term.value == 30
  }

  /** The readings of actual replies name an offered term. */
  lemma ReadTermReadable(s: State, o: Replies)
    ensures TermReadable(Read(s, o))
  {
  }

  /** Every turn keeps the slots consistent with the step it leaves the application at. */
  lemma TurnConsistent(s: State, r: Reading, tool: Tool)
    requires Consistent(s) && TurnDefined(s, r) && TermReadable(r)
    ensures Consistent(Turn(s, r, tool))
  {
    if !InProgress(s.step) {
      ChatSteps(s, r, tool);
      ChatConsistent(s, Turn(s, r, tool));
    } else if Order(s.step.value) <= Order(DownPayment) {
      EarlyTurnConsistent(s, r, tool);
    } else {
      LateTurnConsistent(s, r, tool);
    }
  }

  /** The turns up to the down payment keep the invariant. */
  lemma EarlyTurnConsistent(s: State, r: Reading, tool: Tool)
    requires Consistent(s) && TurnDefined(s, r) && TermReadable(r) && InProgress(s.step) && Order(s.step.value) <= Order(DownPayment)
    ensures Consistent(Turn(s, r, tool))
  {
    var t := Turn(s, r, tool);
    match s.step.value
    case CreditScore =>
      assert t == Nodes.ProcessCreditScore(s, r.number);
      CreditScoreConsistent(s, r.number);
    case SubprimeConfirmation =>
      assert t == Nodes.ProcessSubprimeConfirmation(s, r.proceed);
      SubprimeConsistent(s, r.proceed);
    case HomeValue =>
      assert t == Nodes.ProcessHomeValue(s, r.number);
      HomeValueConsistent(s, r.number);
    case DownPayment =>
      assert t == Nodes.ProcessDownPayment(s, r.downPayment);
      DownPaymentConsistent(s, r.downPayment);
  }

  /** The turns from the income on keep the invariant. */
  lemma LateTurnConsistent(s: State, r: Reading, tool: Tool)
    requires Consistent(s) && TurnDefined(s, r) && TermReadable(r) && InProgress(s.step) && Order(s.step.value) > Order(DownPayment)
    ensures Consistent(Turn(s, r, tool))
  {
    var t := Turn(s, r, tool);
    match s.step.value
    case Income =>
      assert t == Nodes.ProcessIncome(s, r.number);
      IncomeConsistent(s, r.number);
    case Debts =>
      assert t == Nodes.ProcessDebts(s, r.number);
      DebtsConsistent(s, r.number);
    case LoanTerm =>
      assert t == Nodes.ProcessLoanTerm(s, r.term);
      LoanTermConsistent(s, r.term);
    case CalculateRate =>
      assert t.step == Some(Ended);
  }

  /** A chat turn leaves the step alone or starts the application, and either way stays consistent. */
  lemma ChatConsistent(s: State, t: State)
    requires !InProgress(s.step) && (t.step == s.step || t.step == Some(CreditScore))
    ensures Consistent(t)
  {
  }

  lemma CreditScoreConsistent(s: State, reading: Option<real>)
    requires Consistent(s) && s.step == Some(CreditScore)
    ensures Consistent(Nodes.ProcessCreditScore(s, reading))
  {
  }

  lemma SubprimeConsistent(s: State, proceed: bool)
    requires Consistent(s) && s.step == Some(SubprimeConfirmation)
    ensures Consistent(Nodes.ProcessSubprimeConfirmation(s, proceed))
  {
  }

  lemma HomeValueConsistent(s: State, reading: Option<real>)
    requires Consistent(s) && s.step == Some(HomeValue)
    ensures Consistent(Nodes.ProcessHomeValue(s, reading))
  {
  }

  lemma DownPaymentConsistent(s: State, amount: Option<int>)
    requires Consistent(s) && s.step == Some(DownPayment)
    ensures Consistent(Nodes.ProcessDownPayment(s, amount))
  {
  }

  lemma IncomeConsistent(s: State, reading: Option<real>)
    requires Consistent(s) && s.step == Some(Income)
    ensures Consistent(Nodes.ProcessIncome(s, reading))
  {
  }

  lemma DebtsConsistent(s: State, reading: Option<real>)
    requires Consistent(s) && s.step == Some(Debts)
    ensures Consistent(Nodes.ProcessDebts(s, reading))
  {
  }

  lemma LoanTermConsistent(s: State, choice: Option<int>)
    requires Consistent(s) && s.step == Some(LoanTerm)
    requires choice.Some? ==> Nodes.RatiosDefined(s) && (choice.value == 15 || choice.value == 30)
    ensures Consistent(Nodes.ProcessLoanTerm(s, choice))
  {
  }

  /** Outside an application a turn starts one exactly when the intent classifier says so, and otherwise leaves the step alone. */
  lemma ChatSteps(s: State, r: Reading, tool: Tool)
    requires !InProgress(s.step)
    ensures var t := Turn(s, r, tool);
      && (t.step == Some(CreditScore) <==>
            r.accepted && r.application)
      && (t.step != Some(CreditScore) ==> t.step == s.step)
      && SlotsOf(t) == SlotsOf(s)
  {
    assert s.step.None? || s.step == Some(Ended);
  }

  /**
   * Outside an application the topic check decides the mode: an accepted
   * message clears an earlier `error`; otherwise the turn ends in `error` with
   * the rejection and nothing else changed.
   */
  lemma ChatTopic(s: State, r: Reading, tool: Tool)
    requires !InProgress(s.step)
    ensures var t := Turn(s, r, tool);
      && (t.mode == Error <==> !r.accepted)
      && (t.mode == Error ==> t == s.(mode := Error, finalResponse := Some(Canned(OffTopic))))
  {
    assert s.step.None? || s.step == Some(Ended);
  }

  /**
   * A message is rejected exactly when it names no loan keyword and the topic
   * classifier does not answer `yes`; a keyword is never rejected, whatever the
   * classifier says and whatever the mode was.
   */
  lemma KeywordNeverRejected(s: State, o: Replies, tool: Tool)
    requires !InProgress(s.step)
    ensures var t := Turn(s, Read(s, o), tool);
      && (t.mode == Error <==> !Nodes.MentionsLoan(s.userInput) && !Nodes.SaysYes(o.topic))
      && (Nodes.MentionsLoan(s.userInput) ==> t.mode != Error)
  {
    ChatTopic(s, Read(s, o), tool);
  }

  /**
   * An application in progress acts only on what its handler reads: two
   * readings that agree on the extracted number, the down payment, the
   * subprime answer and the term give the same turn, and the graph visits the
   * entry node and the step's handler only.
   */
  lemma HandlerReadsOnly(s: State, r: Reading, other: Reading, tool: Tool)
    requires TurnDefined(s, r) && InProgress(s.step)
    requires other.number == r.number && other.downPayment == r.downPayment
    requires other.proceed == r.proceed && other.term == r.term
    ensures TurnDefined(s, other) && Turn(s, other, tool) == Turn(s, r, tool)
    ensures Run(CheckAppStep, s, r, tool).1 == [CheckAppStep, RouteByAppStep(s.step)]
  {
    RunIsTurn(s, r, tool);
  }

  /**
   * An application in progress never consults the topic or intent classifier,
   * the retriever or the answer: the turn depends on the extraction reply only.
   */
  lemma InProgressSkipsChat(s: State, o: Replies, other: Replies, tool: Tool)
    requires TurnDefined(s, Read(s, o)) && InProgress(s.step) && other.extraction == o.extraction
    ensures TurnDefined(s, Read(s, other)) && Turn(s, Read(s, other), tool) == Turn(s, Read(s, o), tool)
  {
    HandlerReadsOnly(s, Read(s, o), Read(s, other), tool);
  }

  /**
   * The rate step with the deployed tool stores the first matching rule's rate
   * for the score, the ratios rounded to one decimal and the term, when it is
   * non-zero, and ends the application.
   */
  lemma TurnStoresRate(s: State, r: Reading, table: seq<RateRule>)
    requires s.step == Some(Step.CalculateRate) && Nodes.RatiosDefined(s)
    requires s.creditScore.Some? && s.loanTerm.Some?
    ensures var t := Turn(s, r, DeployedTool(table));
      var found := Calculate(table, Query(s.creditScore.value, Rounded1(Nodes.Ltv(s)), Rounded1(Nodes.Dti(s)), s.loanTerm.value));
      && t.step == Some(Ended)
      && t.calculatedRate == (if found.Some? && found.value != 0.0 then Some(Magnitude3(found.value)) else s.calculatedRate)
  {
    assert Turn(s, r, DeployedTool(table)) == Nodes.CalculateRate(s, Decide(Nodes.ToolInput(s), table));
    Nodes.CalculateRateStores(s, table);
  }
}
