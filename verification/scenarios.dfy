/**
 * Worked examples: the subprime threshold, the two down-payment tags, the
 * ratios of a typical application, and one application carried from the
 * first message to the stored rate.
 */
module Scenarios {
  import opened Wrappers
  import opened Text
  import opened Numbers
  import opened AgentState
  import opened Extraction
  import opened RateCalculator
  import opened RateTool
  import Nodes
  import opened Workflow
  import opened StateMachine

  /** A score of 619 is subprime, 620 is not, and 619.9 is truncated to 619 before the comparison. */
  lemma SubprimeBoundary(s: State)
    ensures Nodes.ProcessCreditScore(s, Some(619.0)).step == Some(SubprimeConfirmation)
    ensures Nodes.ProcessCreditScore(s, Some(619.9)).creditScore == Some(619)
    ensures Nodes.ProcessCreditScore(s, Some(619.9)).step == Some(SubprimeConfirmation)
    ensures Nodes.ProcessCreditScore(s, Some(620.0)).step == Some(HomeValue)
  {
    assert Trunc(619.9) == 619;
  }

  /** A tag followed by the digits of `n` ends in a digit and has no colon after the tag. */
  lemma DigitsField(tag: string, n: nat)
    ensures var f := NatToString(n);
      Count(f, ':') == 0 && |tag + f| > 0 && !IsSpace((tag + f)[|tag + f| - 1])
  {
    var f := NatToString(n);
    CountZero(f, ':');
    assert (tag + f)[|tag + f| - 1] == f[|f| - 1];
  }

  /** On a 300,000 home, `PERCENT:10` is a down payment of 30,000. */
  lemma PercentExample()
    ensures DownPaymentAmount(PercentTag + NatToString(10), Some(300000)) == Some(30000)
  {
    DigitsField(PercentTag, 10);
    FloatOfNatString(10);
    PercentReply(NatToString(10), Some(300000));
    assert PercentOf(10.0, 300000) == 30000.0;
  }

  /** Without a home value, a percentage gives no down payment. */
  lemma PercentWithoutHome()
    ensures DownPaymentAmount(PercentTag + NatToString(10), None) == None
  {
    DigitsField(PercentTag, 10);
    PercentReply(NatToString(10), None);
  }

  /** `AMOUNT:` followed by the digits of `n` is a down payment of `n`, whatever the home value. */
  lemma AmountExample(n: nat, homeValue: Option<int>)
    ensures DownPaymentAmount(AmountTag + NatToString(n), homeValue) == Some(n)
  {
    DigitsField(AmountTag, n);
    FloatOfNatString(n);
    AmountReply(NatToString(n), homeValue);
    assert Trunc(n as real) == n;
  }

  /** A monthly debt of `450.75` is read to the cent, as `process_debts` stores it. */
  lemma PointExample()
    ensures ExtractNumber(NatToString(450) + "." + NatToString(75)) == Some(450.75)
  {
    ExtractPoint(NatToString(450), NatToString(75));
    PointDigits();
    HundredthsScale();
  }

  lemma PointDigits()
    ensures |NatToString(75)| == 2 && DigitsValue(NatToString(450) + NatToString(75)) == 45075
  {
    var w, f := NatToString(450), NatToString(75);
    DigitsValueAppend(w, f);
    NatToStringValue(450);
    NatToStringValue(75);
    assert |f| == 2;
    assert Pow10(2) == 100;
  }

  lemma HundredthsScale()
    ensures Scale(45075, -2) == 450.75
  {
  }

  /** A 240,000 loan on a 300,000 home is an LTV of 80%; 2,000 a month on 120,000 a year is a DTI of 20%. */
  lemma RatioExample(s: State)
    requires s.loanAmount == Some(240000) && s.homeValue == Some(300000)
    requires s.income == Some(120000) && s.debts == Some(2000.0)
    ensures Nodes.RatiosDefined(s) && Nodes.Ltv(s) == 80.0 && Nodes.Dti(s) == 20.0
  {
  }

  /** Whole percentages are already rounded to one decimal. */
  lemma WholeRounded(n: nat)
    ensures Rounded1(n as real) == n as real
  {
    assert Tenths(n as real) == 10 * n;
  }

  /** 6.5 is already rounded to three decimals. */
  lemma SixAndAHalf()
    ensures Magnitude3(6.5) == 6.5
  {
    assert Thousandths(6.5) == 6500;
  }

  /** One message of a conversation: what the user typed, and what the model and the retriever answered during its turn. */
  datatype Message = Message(input: string, replies: Replies)

  /** A message during an application, where only the extraction reply is consulted. */
  function Answered(input: string, extraction: string): Message {
    Message(input, Replies("", "", [], "", "", extraction))
  }

  /**
   * Messages taken one after another, as `app.py` does: each becomes
   * `user_input`, the turn reads its replies against that state, and the next
   * message starts from the state the turn left. `None` once a turn is undefined.
   */
  function Converse(s: State, ms: seq<Message>, tool: Tool): Option<State>
    decreases |ms|
  {
    if |ms| == 0 then Some(s)
    else
      var u := s.(userInput := ms[0].input);
      var r := Read(u, ms[0].replies);
      if TurnDefined(u, r) then Converse(Turn(u, r, tool), ms[1..], tool) else None
  }

  /**
   * An application: the user asks to apply, then gives a score of 700, a
   * 300,000 home, 60,000 down, 120,000 a year, 2,000 a month and 30 years,
   * and asks for the rate. The extraction replies are the model's answers
   * to `extract_number` and to the down-payment prompt.
   */
  function ApplicationMessages(): seq<Message> {
    [ Message("I want to apply", Replies("yes", "application", [], "", "", "")),
      Answered("700", NatToString(700)),
      Answered("300000", NatToString(300000)),
      Answered("60000", AmountTag + NatToString(60000)),
      Answered("120000", NatToString(120000)),
      Answered("2000", NatToString(2000)),
      Answered("30", ""),
      Answered("yes", "") ]
  }

  /** The one-rule table the example is priced with. */
  function ExampleTable(): seq<RateRule> {
    [RateRule(700, 80.0, 36.0, 30, 6.5)]
  }

  /** One turn of a conversation. */
  lemma ConverseCons(s: State, ms: seq<Message>, tool: Tool)
    requires |ms| > 0 && TurnDefined(s.(userInput := ms[0].input), Read(s.(userInput := ms[0].input), ms[0].replies))
    ensures var u := s.(userInput := ms[0].input);
      Converse(s, ms, tool) == Converse(Turn(u, Read(u, ms[0].replies), tool), ms[1..], tool)
  {
  }

  /** The tool the example is priced with. */
  function ExampleTool(): Tool {
    DeployedTool(ExampleTable())
  }

  /** A text without capital letters is its own lower-casing. */
  lemma LowerPlain(s: string)
    requires forall i | 0 <= i < |s| :: !('A' <= s[i] <= 'Z')
    ensures Lower(s) == s
  {
  }

  /** The classifiers' replies of the first message: the topic is accepted and the intent is to apply. */
  lemma ApplyReplies(topic: string, intent: string)
    requires topic == "yes" && intent == "application"
    ensures Nodes.SaysYes(topic) && Nodes.WantsApplication(intent)
  {
    StripUnchanged(topic);
    LowerPlain(topic);
    StripUnchanged(intent);
    LowerPlain(intent);
  }

  /** A message whose classifiers accept the topic and ask to apply starts the application, whatever the state outside one held. */
  lemma ApplyStep(s: State, ms: seq<Message>) returns (t: State)
    requires !InProgress(s.step) && |ms| > 0
    requires Nodes.SaysYes(ms[0].replies.topic) && Nodes.WantsApplication(ms[0].replies.intent)
    ensures Converse(s, ms, ExampleTool()) == Converse(t, ms[1..], ExampleTool())
    ensures t.step == Some(CreditScore) && t.mode == Application
  {
    var u := s.(userInput := ms[0].input);
    var r := Read(u, ms[0].replies);
    t := Turn(u, r, ExampleTool());
    ChatSteps(u, r, ExampleTool());
    ConverseCons(s, ms, ExampleTool());
  }

  /** An extraction reply of 700 records the score and asks for the home value. */
  lemma ScoreStep(s: State, ms: seq<Message>, k: nat) returns (t: State)
    requires s.step == Some(CreditScore) && k < |ms| && ms[k].replies.extraction == NatToString(700)
    ensures Converse(s, ms[k..], ExampleTool()) == Converse(t, ms[k + 1..], ExampleTool())
    ensures t == s.(userInput := ms[k].input, creditScore := Some(700), step := Some(HomeValue), finalResponse := t.finalResponse)
  {
    var u := s.(userInput := ms[k].input);
    ExtractNat(700);
    t := Turn(u, Read(u, ms[k].replies), ExampleTool());
    assert t == Nodes.ProcessCreditScore(u, Some(700.0));
    assert Trunc(700.0) == 700;
    ConverseCons(s, ms[k..], ExampleTool());
    assert ms[k..][1..] == ms[k + 1..];
  }

  /** An extraction reply of 300,000 records the home value and asks for the down payment. */
  lemma HomeStep(s: State, ms: seq<Message>, k: nat) returns (t: State)
    requires s.step == Some(HomeValue) && k < |ms| && ms[k].replies.extraction == NatToString(300000)
    ensures Converse(s, ms[k..], ExampleTool()) == Converse(t, ms[k + 1..], ExampleTool())
    ensures t == s.(userInput := ms[k].input, homeValue := Some(300000), step := Some(DownPayment), finalResponse := t.finalResponse)
  {
    var u := s.(userInput := ms[k].input);
    ExtractNat(300000);
    t := Turn(u, Read(u, ms[k].replies), ExampleTool());
    assert t == Nodes.ProcessHomeValue(u, Some(300000.0));
    assert Trunc(300000.0) == 300000;
    ConverseCons(s, ms[k..], ExampleTool());
    assert ms[k..][1..] == ms[k + 1..];
  }

  /** `AMOUNT:60000` on a 300,000 home records 60,000 down and a loan of 240,000. */
  lemma DownStep(s: State, ms: seq<Message>, k: nat) returns (t: State)
    requires s.step == Some(DownPayment) && s.homeValue == Some(300000)
    requires k < |ms| && ms[k].replies.extraction == AmountTag + NatToString(60000)
    ensures Converse(s, ms[k..], ExampleTool()) == Converse(t, ms[k + 1..], ExampleTool())
    ensures t == s.(userInput := ms[k].input, downPayment := Some(60000), loanAmount := Some(240000), step := Some(Income), finalResponse := t.finalResponse)
  {
    var u := s.(userInput := ms[k].input);
    AmountExample(60000, u.homeValue);
    t := Turn(u, Read(u, ms[k].replies), ExampleTool());
    assert t == Nodes.ProcessDownPayment(u, Some(60000));
    ConverseCons(s, ms[k..], ExampleTool());
    assert ms[k..][1..] == ms[k + 1..];
  }

  /** An extraction reply of 120,000 records the income and asks for the debts. */
  lemma IncomeStep(s: State, ms: seq<Message>, k: nat) returns (t: State)
    requires s.step == Some(Income) && k < |ms| && ms[k].replies.extraction == NatToString(120000)
    ensures Converse(s, ms[k..], ExampleTool()) == Converse(t, ms[k + 1..], ExampleTool())
    ensures t == s.(userInput := ms[k].input, income := Some(120000), step := Some(Debts), finalResponse := t.finalResponse)
  {
    var u := s.(userInput := ms[k].input);
    ExtractNat(120000);
    t := Turn(u, Read(u, ms[k].replies), ExampleTool());
    assert t == Nodes.ProcessIncome(u, Some(120000.0));
    assert Trunc(120000.0) == 120000;
    ConverseCons(s, ms[k..], ExampleTool());
    assert ms[k..][1..] == ms[k + 1..];
  }

  /** An extraction reply of 2,000 records the monthly debts and asks for the term. */
  lemma DebtsStep(s: State, ms: seq<Message>, k: nat) returns (t: State)
    requires s.step == Some(Debts) && k < |ms| && ms[k].replies.extraction == NatToString(2000)
    ensures Converse(s, ms[k..], ExampleTool()) == Converse(t, ms[k + 1..], ExampleTool())
    ensures t == s.(userInput := ms[k].input, debts := Some(2000.0), step := Some(LoanTerm), finalResponse := t.finalResponse)
  {
    var u := s.(userInput := ms[k].input);
    ExtractNat(2000);
    t := Turn(u, Read(u, ms[k].replies), ExampleTool());
    assert t == Nodes.ProcessDebts(u, Some(2000.0));
    ConverseCons(s, ms[k..], ExampleTool());
    assert ms[k..][1..] == ms[k + 1..];
  }

  /** "30" chooses thirty years. */
  lemma ThirtyChosen(input: string)
    requires input == "30"
    ensures Nodes.TermChoice(input) == Some(30)
  {
    StripUnchanged(input);
    assert Contains(input, "30") by { assert OccursAt(input, "30", 0); }
    assert !OccursAt(input, "15", 0);
  }

  /** An utterance choosing thirty years records the term and moves on to the rate. */
  lemma TermStep(s: State, ms: seq<Message>, k: nat) returns (t: State)
    requires s.step == Some(LoanTerm) && Nodes.RatiosDefined(s)
    requires k < |ms| && Nodes.TermChoice(ms[k].input) == Some(30)
    ensures Converse(s, ms[k..], ExampleTool()) == Converse(t, ms[k + 1..], ExampleTool())
    ensures t == s.(userInput := ms[k].input, loanTerm := Some(30), step := Some(Step.CalculateRate), finalResponse := t.finalResponse)
  {
    var u := s.(userInput := ms[k].input);
    t := Turn(u, Read(u, ms[k].replies), ExampleTool());
    assert t == Nodes.ProcessLoanTerm(u, Some(30));
    ConverseCons(s, ms[k..], ExampleTool());
    assert ms[k..][1..] == ms[k + 1..];
  }

  /** The rate turn of the example prices the application at the table's 6.5% and ends it, whatever the message says. */
  lemma RateStep(s: State, ms: seq<Message>, k: nat) returns (t: State)
    requires s.step == Some(Step.CalculateRate) && s.creditScore == Some(700) && s.loanTerm == Some(30)
    requires s.loanAmount == Some(240000) && s.homeValue == Some(300000)
    requires s.income == Some(120000) && s.debts == Some(2000.0)
    requires k + 1 == |ms|
    ensures Converse(s, ms[k..], ExampleTool()) == Some(t)
    ensures t.step == Some(Ended) && t.calculatedRate == Some(6.5)
    ensures t.creditScore == s.creditScore && t.loanAmount == s.loanAmount && t.loanTerm == s.loanTerm
  {
    var u := s.(userInput := ms[k].input);
    var r := Read(u, ms[k].replies);
    RatioExample(u);
    WholeRounded(80);
    WholeRounded(20);
    var q := Query(700, Rounded1(Nodes.Ltv(u)), Rounded1(Nodes.Dti(u)), 30);
    assert q == Query(700, 80.0, 20.0, 30);
    assert Calculate(ExampleTable(), q) == Some(6.5);
    SixAndAHalf();
    t := Turn(u, r, ExampleTool());
    TurnStoresRate(u, r, ExampleTable());
    ConverseCons(s, ms[k..], ExampleTool());
    assert ms[k..][1..] == [];
  }

  /** What the rest of a conversation ends with: the application ended at 6.5% with the example's score, loan and term. */
  predicate EndsPriced(end: Option<State>) {
    && end.Some? && end.value.step == Some(Ended) && end.value.calculatedRate == Some(6.5)
    && end.value.creditScore == Some(700) && end.value.loanAmount == Some(240000) && end.value.loanTerm == Some(30)
  }

  /** From the term question on, thirty years and the rate turn end the application priced. */
  lemma FromTerm(s: State, ms: seq<Message>)
    requires s.step == Some(LoanTerm) && s.creditScore == Some(700)
    requires s.loanAmount == Some(240000) && s.homeValue == Some(300000)
    requires s.income == Some(120000) && s.debts == Some(2000.0)
    requires |ms| == 8 && Nodes.TermChoice(ms[6].input) == Some(30)
    ensures EndsPriced(Converse(s, ms[6..], ExampleTool()))
  {
    var t := TermStep(s, ms, 6);
    var end := RateStep(t, ms, 7);
  }

  /** From the debts question on, the last three messages end the application priced. */
  lemma FromDebts(s: State, ms: seq<Message>)
    requires s.step == Some(Debts) && s.creditScore == Some(700)
    requires s.loanAmount == Some(240000) && s.homeValue == Some(300000) && s.income == Some(120000)
    requires |ms| == 8 && ms[5].replies.extraction == NatToString(2000)
    requires Nodes.TermChoice(ms[6].input) == Some(30)
    ensures EndsPriced(Converse(s, ms[5..], ExampleTool()))
  {
    var t := DebtsStep(s, ms, 5);
    FromTerm(t, ms);
  }

  /** From the income question on, the last four messages end the application priced. */
  lemma FromIncome(s: State, ms: seq<Message>)
    requires s.step == Some(Income) && s.creditScore == Some(700)
    requires s.loanAmount == Some(240000) && s.homeValue == Some(300000)
    requires |ms| == 8 && ms[4].replies.extraction == NatToString(120000)
    requires ms[5].replies.extraction == NatToString(2000)
    requires Nodes.TermChoice(ms[6].input) == Some(30)
    ensures EndsPriced(Converse(s, ms[4..], ExampleTool()))
  {
    var t := IncomeStep(s, ms, 4);
    FromDebts(t, ms);
  }

  /** From the down-payment question on, the last five messages end the application priced. */
  lemma FromDown(s: State, ms: seq<Message>)
    requires s.step == Some(DownPayment) && s.creditScore == Some(700) && s.homeValue == Some(300000)
    requires |ms| == 8 && ms[3].replies.extraction == AmountTag + NatToString(60000)
    requires ms[4].replies.extraction == NatToString(120000)
    requires ms[5].replies.extraction == NatToString(2000)
    requires Nodes.TermChoice(ms[6].input) == Some(30)
    ensures EndsPriced(Converse(s, ms[3..], ExampleTool()))
  {
    var t := DownStep(s, ms, 3);
    FromIncome(t, ms);
  }

  /** From the home-value question on, the last six messages end the application priced. */
  lemma FromHome(s: State, ms: seq<Message>)
    requires s.step == Some(HomeValue) && s.creditScore == Some(700)
    requires |ms| == 8 && ms[2].replies.extraction == NatToString(300000)
    requires ms[3].replies.extraction == AmountTag + NatToString(60000)
    requires ms[4].replies.extraction == NatToString(120000)
    requires ms[5].replies.extraction == NatToString(2000)
    requires Nodes.TermChoice(ms[6].input) == Some(30)
    ensures EndsPriced(Converse(s, ms[2..], ExampleTool()))
  {
    var t := HomeStep(s, ms, 2);
    FromDown(t, ms);
  }

  /** From the score question on, the last seven messages end the application priced. */
  lemma FromScore(s: State, ms: seq<Message>)
    requires s.step == Some(CreditScore)
    requires |ms| == 8 && ms[1].replies.extraction == NatToString(700)
    requires ms[2].replies.extraction == NatToString(300000)
    requires ms[3].replies.extraction == AmountTag + NatToString(60000)
    requires ms[4].replies.extraction == NatToString(120000)
    requires ms[5].replies.extraction == NatToString(2000)
    requires Nodes.TermChoice(ms[6].input) == Some(30)
    ensures EndsPriced(Converse(s, ms[1..], ExampleTool()))
  {
    var t := ScoreStep(s, ms, 1);
    FromHome(t, ms);
  }

  /**
   * Any conversation of eight messages whose replies read as the example's
   * figures takes a state outside an application to the end of one, with the
   * score, the loan and the term recorded and the table's 6.5% stored.
   */
  lemma ConversationRun(s: State, ms: seq<Message>)
    requires !InProgress(s.step) && |ms| == 8
    requires Nodes.SaysYes(ms[0].replies.topic) && Nodes.WantsApplication(ms[0].replies.intent)
    requires ms[1].replies.extraction == NatToString(700)
    requires ms[2].replies.extraction == NatToString(300000)
    requires ms[3].replies.extraction == AmountTag + NatToString(60000)
    requires ms[4].replies.extraction == NatToString(120000)
    requires ms[5].replies.extraction == NatToString(2000)
    requires Nodes.TermChoice(ms[6].input) == Some(30)
    ensures EndsPriced(Converse(s, ms, ExampleTool()))
  {
    var t := ApplyStep(s, ms);
    FromScore(t, ms);
  }

  /** The example's extraction replies are the figures' digits, and the down payment is tagged as an amount. */
  lemma ExampleFigures(ms: seq<Message>)
    requires ms == ApplicationMessages()
    ensures |ms| == 8
    ensures ms[1].replies.extraction == NatToString(700)
    ensures ms[2].replies.extraction == NatToString(300000)
    ensures ms[3].replies.extraction == AmountTag + NatToString(60000)
    ensures ms[4].replies.extraction == NatToString(120000)
    ensures ms[5].replies.extraction == NatToString(2000)
  {
  }

  /** The example's first message is on topic and asks to apply. */
  lemma ExampleClassifiers(ms: seq<Message>)
    requires ms == ApplicationMessages()
    ensures Nodes.SaysYes(ms[0].replies.topic) && Nodes.WantsApplication(ms[0].replies.intent)
  {
    ApplyReplies(ms[0].replies.topic, ms[0].replies.intent);
  }

  /** The example's seventh message chooses thirty years. */
  lemma ExampleTerm(ms: seq<Message>)
    requires ms == ApplicationMessages()
    ensures Nodes.TermChoice(ms[6].input) == Some(30)
  {
    ThirtyChosen(ms[6].input);
  }

  /**
   * From any state outside an application, the example's eight messages end
   * the application with the score, the loan and the term recorded and the
   * table's 6.5% stored.
   */
  lemma ApplicationRun(s: State)
    requires !InProgress(s.step)
    ensures var end := Converse(s, ApplicationMessages(), ExampleTool());
      && end.Some? && end.value.step == Some(Ended) && end.value.calculatedRate == Some(6.5)
      && end.value.creditScore == Some(700) && end.value.loanAmount == Some(240000) && end.value.loanTerm == Some(30)
  {
    ExampleFigures(ApplicationMessages());
    ExampleClassifiers(ApplicationMessages());
    ExampleTerm(ApplicationMessages());
    ConversationRun(s, ApplicationMessages());
  }
}
