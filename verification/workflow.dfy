/**
 * The compiled workflow graph: which node runs after which, and what one turn
 * (one invocation of the graph, entered at `check_app_step`) does to the state.
 * The language model's and the retriever's answers for the turn are the
 * parameter `Replies`, which `Read` turns into the decisions the nodes act
 * on; the rate tool is a parameter too.
 */
module Workflow {
  import opened Wrappers
  import opened Text
  import opened AgentState
  import opened Extraction
  import opened RateCalculator
  import opened RateTool
  import Nodes

  /**
   * The rate tool as the graph calls it: from the input text to its answer.
   * The deployed tool is `DeployedTool(table)`.
   */
  type Tool = string -> Answer

  /** `calculate_mortgage_rate` over the loaded rate table. */
  function DeployedTool(table: seq<RateRule>): Tool {
    input => Decide(input, table)
  }

  /** The graph's nodes, named after the source's node names (`CalculateRateNode` is `calculate_rate`). */
  datatype Node =
    | CheckAppStep
    | ValidateTopic
    | RouteIntent
    | RetrieveDocuments
    | CheckRelevance
    | AnswerQuestion
    | StartApplication
    | ProcessCreditScore
    | ProcessSubprimeConfirmation
    | ProcessHomeValue
    | ProcessDownPayment
    | ProcessIncome
    | ProcessDebts
    | ProcessLoanTerm
    | CalculateRateNode

  /**
   * What the outside world answers during one turn: the topic and intent
   * classifiers, the retriever's passages, the relevance classifier, the
   * question's answer, and the extraction reply (a number, or the tagged
   * down payment) of whichever slot the turn fills.
   */
  datatype Replies = Replies(
    topic: string,
    intent: string,
    docs: seq<string>,
    relevance: string,
    answer: string,
    extraction: string)

  /** What the nodes of one turn act on: each reply as the node that asks for it reads it. */
  datatype Reading = Reading(
    accepted: bool,
    application: bool,
    docs: seq<string>,
    relevant: bool,
    answer: string,
    number: Option<real>,
    downPayment: Option<int>,
    proceed: bool,
    term: Option<int>)

  /**
   * The readings of a turn that starts in `s`: the topic check's verdict, the
   * intent, the passages, the relevance verdict, the answer, `extract_number`
   * of the extraction reply, the tagged down payment, the subprime answer and
   * the chosen term. Reading them all from `s` is exact: no node writes the
   * utterance, and the only slot a reading depends on is the home value of
   * `process_down_payment`, which runs straight after the pass-through
   * `check_app_step`. The relevance verdict and the answer, which the source
   * asks for with the context an earlier node of the turn stored, are free
   * replies in any case.
   */
  function Read(s: State, o: Replies): Reading {
    Reading(
      Nodes.TopicAccepted(s.userInput, o.topic),
      Nodes.WantsApplication(o.intent),
      o.docs,
      Nodes.SaysYes(o.relevance),
      o.answer,
      ExtractNumber(o.extraction),
      DownPaymentAmount(o.extraction, s.homeValue),
      Nodes.Affirmative(s.userInput),
      Nodes.TermChoice(s.userInput))
  }

  /** `route_by_app_step` together with its edge map: an application step resumes at its handler, anything else starts over at the topic check. */
  function RouteByAppStep(step: Option<Step>): (n: Node)
    ensures !InProgress(step) <==> n == ValidateTopic
  {
    match step
    case Some(CreditScore) => ProcessCreditScore
    case Some(SubprimeConfirmation) => ProcessSubprimeConfirmation
    case Some(HomeValue) => ProcessHomeValue
    case Some(DownPayment) => ProcessDownPayment
    case Some(Income) => ProcessIncome
    case Some(Debts) => ProcessDebts
    case Some(LoanTerm) => ProcessLoanTerm
    case Some(CalculateRate) => CalculateRateNode
    case _ => ValidateTopic
  }

  /**
   * The node after `n` once it has produced `s`; `None` is `END`. The graph has
   * no branch for the `error` mode after `route_intent`, which never produces it.
   */
  function Next(n: Node, s: State): Option<Node> {
    match n
    case CheckAppStep => Some(RouteByAppStep(s.step))
    case ValidateTopic => if s.mode == Error then None else Some(RouteIntent)
    case RouteIntent =>
      (match s.mode
       case QA => Some(RetrieveDocuments)
       case Application => Some(StartApplication)
       case Error => None)
    case RetrieveDocuments => Some(CheckRelevance)
    case CheckRelevance => Some(AnswerQuestion)
    case _ => None
  }

  /** A node's distance from the end of any path through it: every edge goes down. */
  function Depth(n: Node): nat {
    match n
    case CheckAppStep => 5
    case ValidateTopic => 4
    case RouteIntent => 3
    case RetrieveDocuments => 2
    case CheckRelevance => 1
    case _ => 0
  }

  lemma NextIsDeeper(n: Node, s: State)
    ensures Next(n, s).Some? ==> Depth(Next(n, s).value) < Depth(n)
  {
  }

  /**
   * The turn on `s` can run to its end without the source failing outside a
   * `try`: a down payment needs a home value to subtract from, and the ratios
   * need their figures and non-zero divisors.
   */
  predicate TurnDefined(s: State, r: Reading) {
    match s.step
    case Some(DownPayment) => r.downPayment.Some? ==> s.homeValue.Some?
    case Some(LoanTerm) => r.term.Some? ==> Nodes.RatiosDefined(s)
    case Some(CalculateRate) => Nodes.RatiosDefined(s)
    case _ => true
  }

  /** The node `n` can run on `s`: the entry node needs what the whole turn needs. */
  predicate Safe(n: Node, s: State, r: Reading) {
    match n
    case CheckAppStep => TurnDefined(s, r)
    case ProcessDownPayment => r.downPayment.Some? ==> s.homeValue.Some?
    case ProcessLoanTerm => r.term.Some? ==> Nodes.RatiosDefined(s)
    case CalculateRateNode => Nodes.RatiosDefined(s)
    case _ => true
  }

  /** Running one node. */
  function Exec(n: Node, s: State, r: Reading, tool: Tool): State
    requires Safe(n, s, r)
  {
    match n
    case CheckAppStep => s
    case ValidateTopic => Nodes.ValidateTopic(s, r.accepted)
    case RouteIntent => Nodes.RouteIntent(s, r.application)
    case RetrieveDocuments => Nodes.RetrieveDocuments(s, r.docs)
    case CheckRelevance => Nodes.CheckRelevance(s, r.relevant)
    case AnswerQuestion => Nodes.AnswerQuestion(s, r.answer)
    case StartApplication => Nodes.StartApplication(s)
    case ProcessCreditScore => Nodes.ProcessCreditScore(s, r.number)
    case ProcessSubprimeConfirmation => Nodes.ProcessSubprimeConfirmation(s, r.proceed)
    case ProcessHomeValue => Nodes.ProcessHomeValue(s, r.number)
    case ProcessDownPayment => Nodes.ProcessDownPayment(s, r.downPayment)
    case ProcessIncome => Nodes.ProcessIncome(s, r.number)
    case ProcessDebts => Nodes.ProcessDebts(s, r.number)
    case ProcessLoanTerm => Nodes.ProcessLoanTerm(s, r.term)
    case CalculateRateNode => Nodes.CalculateRate(s, tool(Nodes.ToolInput(s)))
  }

  /** A safe node leads to a node that is safe on what it produced. */
  lemma NextSafe(n: Node, s: State, r: Reading, tool: Tool)
    requires Safe(n, s, r)
    ensures var t := Exec(n, s, r, tool); Next(n, t).Some? ==> Safe(Next(n, t).value, t, r)
  {
    if n == CheckAppStep {
      assert Exec(n, s, r, tool) == s;
    }
  }

  /** The graph run from node `n` to `END`: the final state and the nodes visited, in order. */
  function Run(n: Node, s: State, r: Reading, tool: Tool): (res: (State, seq<Node>))
    requires Safe(n, s, r)
    ensures |res.1| >= 1 && res.1[0] == n
    decreases Depth(n)
  {
    var t := Exec(n, s, r, tool);
    NextSafe(n, s, r, tool);
    match Next(n, t)
    case None => (t, [n])
    case Some(m) =>
      var rest := Run(m, t, r, tool);
      (rest.0, [n] + rest.1)
  }

  /**
   * One turn written out directly: an
   * application in progress goes straight to its step's handler; otherwise the
   * topic is checked, and an on-topic message either starts the application or
   * is answered from the retrieved documents.
   */
  function Turn(s: State, r: Reading, tool: Tool): State
    requires TurnDefined(s, r)
  {
    match s.step
    case Some(CreditScore) => Nodes.ProcessCreditScore(s, r.number)
    case Some(SubprimeConfirmation) => Nodes.ProcessSubprimeConfirmation(s, r.proceed)
    case Some(HomeValue) => Nodes.ProcessHomeValue(s, r.number)
    case Some(DownPayment) => Nodes.ProcessDownPayment(s, r.downPayment)
    case Some(Income) => Nodes.ProcessIncome(s, r.number)
    case Some(Debts) => Nodes.ProcessDebts(s, r.number)
    case Some(LoanTerm) => Nodes.ProcessLoanTerm(s, r.term)
    case Some(CalculateRate) => Nodes.CalculateRate(s, tool(Nodes.ToolInput(s)))
    case _ => Chat(s, r)
  }

  /** A turn outside an application: the topic check, then the application's start or the answer. */
  function Chat(s: State, r: Reading): State {
    var checked := Nodes.ValidateTopic(s, r.accepted);
    if checked.mode == Error then checked
    else
      var routed := Nodes.RouteIntent(checked, r.application);
      if routed.mode == Application then Nodes.StartApplication(routed)
      else
        var found := Nodes.RetrieveDocuments(routed, r.docs);
        Nodes.AnswerQuestion(Nodes.CheckRelevance(found, r.relevant), r.answer)
  }

  /** The nodes a chat turn visits after the entry node. */
  function ChatPath(s: State, r: Reading): seq<Node> {
    if !r.accepted then [ValidateTopic]
    else if r.application then [ValidateTopic, RouteIntent, StartApplication]
    else [ValidateTopic, RouteIntent, RetrieveDocuments, CheckRelevance, AnswerQuestion]
  }

  /** The nodes a turn visits, written out directly. */
  function TurnPath(s: State, r: Reading): seq<Node> {
    [CheckAppStep] + if InProgress(s.step) then [RouteByAppStep(s.step)] else ChatPath(s, r)
  }

  /** One step of `Run`: the node runs, then the run continues from the next node, if any. */
  lemma RunStep(n: Node, s: State, r: Reading, tool: Tool)
    requires Safe(n, s, r)
    ensures var t := Exec(n, s, r, tool);
      Next(n, t).None? ==> Run(n, s, r, tool) == (t, [n])
    ensures var t := Exec(n, s, r, tool);
      Next(n, t).Some? ==>
        && Safe(Next(n, t).value, t, r)
        && Run(n, s, r, tool) == (Run(Next(n, t).value, t, r, tool).0, [n] + Run(Next(n, t).value, t, r, tool).1)
  {
    NextSafe(n, s, r, tool);
  }

  /** A handler node is the last node of its path. */
  lemma RunLast(n: Node, s: State, r: Reading, tool: Tool)
    requires Safe(n, s, r) && Depth(n) == 0
    ensures Run(n, s, r, tool) == (Exec(n, s, r, tool), [n])
  {
    RunStep(n, s, r, tool);
  }

  /** The question is answered last. */
  lemma RunAnswerLast(s: State, r: Reading, tool: Tool)
    ensures Run(AnswerQuestion, s, r, tool) == (Nodes.AnswerQuestion(s, r.answer), [AnswerQuestion])
  {
    RunLast(AnswerQuestion, s, r, tool);
  }

  /** After the relevance check comes the answer. */
  lemma RunRelevance(s: State, r: Reading, tool: Tool)
    ensures Run(CheckRelevance, s, r, tool) ==
      (Nodes.AnswerQuestion(Nodes.CheckRelevance(s, r.relevant), r.answer), [CheckRelevance, AnswerQuestion])
  {
    var relevant := Nodes.CheckRelevance(s, r.relevant);
    RunAnswerLast(relevant, r, tool);
    RunStep(CheckRelevance, s, r, tool);
    assert [CheckRelevance] + [AnswerQuestion] == [CheckRelevance, AnswerQuestion];
  }

  /** The question-answering chain after routing: retrieve, check relevance, answer. */
  lemma RunAnswer(s: State, r: Reading, tool: Tool)
    ensures Run(RetrieveDocuments, s, r, tool) ==
      (Nodes.AnswerQuestion(Nodes.CheckRelevance(Nodes.RetrieveDocuments(s, r.docs), r.relevant), r.answer),
       [RetrieveDocuments, CheckRelevance, AnswerQuestion])
  {
    var found := Nodes.RetrieveDocuments(s, r.docs);
    RunRelevance(found, r, tool);
    RunStep(RetrieveDocuments, s, r, tool);
    assert [RetrieveDocuments] + [CheckRelevance, AnswerQuestion] == [RetrieveDocuments, CheckRelevance, AnswerQuestion];
  }

  /** After routing: an application starts, anything else is answered from the documents. */
  lemma RunRoute(s: State, r: Reading, tool: Tool)
    ensures var routed := Nodes.RouteIntent(s, r.application);
      Run(RouteIntent, s, r, tool) ==
        if routed.mode == Application then (Nodes.StartApplication(routed), [RouteIntent, StartApplication])
        else (Nodes.AnswerQuestion(Nodes.CheckRelevance(Nodes.RetrieveDocuments(routed, r.docs), r.relevant), r.answer),
              [RouteIntent, RetrieveDocuments, CheckRelevance, AnswerQuestion])
  {
    var routed := Nodes.RouteIntent(s, r.application);
    RunStep(RouteIntent, s, r, tool);
    if routed.mode == Application {
      RunLast(StartApplication, routed, r, tool);
      assert [RouteIntent] + [StartApplication] == [RouteIntent, StartApplication];
    } else {
      RunAnswer(routed, r, tool);
      assert [RouteIntent] + [RetrieveDocuments, CheckRelevance, AnswerQuestion]
          == [RouteIntent, RetrieveDocuments, CheckRelevance, AnswerQuestion];
    }
  }

  /** The topic chain: an off-topic message ends at the check, an on-topic one is routed. */
  lemma RunTopic(s: State, r: Reading, tool: Tool)
    ensures var checked := Nodes.ValidateTopic(s, r.accepted);
      checked.mode == Error ==> Run(ValidateTopic, s, r, tool) == (checked, [ValidateTopic])
    ensures var checked := Nodes.ValidateTopic(s, r.accepted);
      checked.mode != Error ==>
        Run(ValidateTopic, s, r, tool) ==
          (Run(RouteIntent, checked, r, tool).0, [ValidateTopic] + Run(RouteIntent, checked, r, tool).1)
  {
    RunStep(ValidateTopic, s, r, tool);
  }

  /** An application in progress runs its step's handler and nothing else. */
  lemma RunHandler(s: State, r: Reading, tool: Tool)
    requires TurnDefined(s, r) && InProgress(s.step)
    ensures Run(CheckAppStep, s, r, tool) == (Turn(s, r, tool), TurnPath(s, r))
  {
    var first := RouteByAppStep(s.step);
    RunStep(CheckAppStep, s, r, tool);
    RunLast(first, s, r, tool);
    HandlerIsTurn(s, r, tool);
  }

  /** The handler `check_app_step` routes to does what the direct turn does. */
  lemma HandlerIsTurn(s: State, r: Reading, tool: Tool)
    requires TurnDefined(s, r) && InProgress(s.step)
    ensures Exec(RouteByAppStep(s.step), s, r, tool) == Turn(s, r, tool)
  {
  }

  /** From the topic check on, the graph does what the direct chat turn does. */
  lemma RunTopicIsChat(s: State, r: Reading, tool: Tool)
    ensures Run(ValidateTopic, s, r, tool) == (Chat(s, r), ChatPath(s, r))
  {
    RunTopic(s, r, tool);
    var checked := Nodes.ValidateTopic(s, r.accepted);
    if checked.mode != Error {
      RunRoute(checked, r, tool);
      var routed := Nodes.RouteIntent(checked, r.application);
      if routed.mode == Application {
        assert [ValidateTopic] + [RouteIntent, StartApplication] == [ValidateTopic, RouteIntent, StartApplication];
      } else {
        assert [ValidateTopic] + [RouteIntent, RetrieveDocuments, CheckRelevance, AnswerQuestion]
            == [ValidateTopic, RouteIntent, RetrieveDocuments, CheckRelevance, AnswerQuestion];
      }
    }
  }

  /** Any other turn checks the topic and goes on as the checks decide. */
  lemma RunChat(s: State, r: Reading, tool: Tool)
    requires !InProgress(s.step)
    ensures Run(CheckAppStep, s, r, tool) == (Turn(s, r, tool), TurnPath(s, r))
  {
    RunStep(CheckAppStep, s, r, tool);
    RunTopicIsChat(s, r, tool);
  }

  /** Running the graph from its entry point is the direct turn, along the direct path. */
  lemma RunIsTurn(s: State, r: Reading, tool: Tool)
    requires TurnDefined(s, r)
    ensures Run(CheckAppStep, s, r, tool) == (Turn(s, r, tool), TurnPath(s, r))
  {
    if InProgress(s.step) {
      RunHandler(s, r, tool);
    } else {
      RunChat(s, r, tool);
    }
  }

  /**
   * The graph as a loop: starting at `check_app_step`, run the current node and
   * follow its edge until `END`. It ends in the turn's state, having visited the
   * turn's path. The turn's readings are `Read(s, o)` of its replies `o`.
   */
  method Invoke(s: State, r: Reading, tool: Tool) returns (t: State, path: seq<Node>)
    requires TurnDefined(s, r)
    ensures t == Turn(s, r, tool) && path == TurnPath(s, r)
  {
    var current: Option<Node> := Some(CheckAppStep);
    t := s;
    path := [];
    assert path + Run(CheckAppStep, s, r, tool).1 == Run(CheckAppStep, s, r, tool).1;
    while current.Some?
      invariant current.Some? ==> Safe(current.value, t, r)
      invariant current.Some? ==>
        Run(CheckAppStep, s, r, tool) == (Run(current.value, t, r, tool).0, path + Run(current.value, t, r, tool).1)
      invariant current.None? ==> Run(CheckAppStep, s, r, tool) == (t, path)
      decreases if current.Some? then Depth(current.value) + 1 else 0
    {
      var n := current.value;
      var u := Exec(n, t, r, tool);
      NextSafe(n, t, r, tool);
      RunStep(n, t, r, tool);
      NextIsDeeper(n, u);
      if Next(n, u).Some? {
        var rest := Run(Next(n, u).value, u, r, tool).1;
        assert path + ([n] + rest) == (path + [n]) + rest;
      }
      path := path + [n];
      current, t := Next(n, u), u;
    }
    RunIsTurn(s, r, tool);
  }
}
