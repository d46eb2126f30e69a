/**
 * The workflow's nodes, one function each, and the readings of the model's
 * replies they act on. A node that asks the language model (or the retriever)
 * something is split in two: a reading function applies the node's own text
 * post-processing to the reply (`TopicAccepted`, `WantsApplication`, `SaysYes`,
 * `Affirmative`, `TermChoice`, and `extract_number` in the extraction module),
 * and the node function updates the state from that reading.
 */
module Nodes {
  import opened Wrappers
  import opened Text
  import opened Numbers
  import opened AgentState
  import opened RateCalculator
  import opened RateTool
  import opened Responses

  // ---------------------------------------------------------------- topic and intent

  /** The words that mark an utterance as on topic without asking the classifier. */
  const Keywords: seq<string> := ["application", "apply", "mortgage", "loan", "rate", "borrow", "finance", "refinance"]

  /** The lowercased utterance contains one of the keywords. */
  predicate MentionsLoan(input: string) {
    exists i | 0 <= i < |Keywords| :: Contains(Lower(input), Keywords[i])
  }

  /** A classifier reply that says yes: stripped and lowercased, it is exactly `yes`. */
  predicate SaysYes(reply: string) {
    Lower(Strip(reply)) == "yes"
  }

  /**
   * The topic check of `validate_topic`: a keyword lets the utterance through
   * without asking the classifier; otherwise the classifier's `reply` must say yes.
   */
  predicate TopicAccepted(input: string, reply: string) {
    MentionsLoan(input) || SaysYes(reply)
  }

  /** With a keyword in the utterance the classifier's reply does not matter: it is never asked. */
  lemma KeywordSkipsClassifier(input: string, reply: string, other: string)
    requires MentionsLoan(input)
    ensures TopicAccepted(input, reply) && TopicAccepted(input, other)
  {
  }

  /** Without a keyword the classifier decides, and only an exact `yes` (in any case and spacing) accepts. */
  lemma ClassifierDecides(input: string, reply: string)
    requires !MentionsLoan(input)
    ensures TopicAccepted(input, reply) <==> Lower(Strip(reply)) == "yes"
  {
  }

  /** Leaving the error mode, and only it: an on-topic turn turns `error` into `qa`. */
  function Heal(mode: Mode): (m: Mode)
    ensures m != Error
    ensures mode != Error ==> m == mode
  {
    if mode == Error then QA else mode
  }

  /**
   * `validate_topic`, given whether the topic check accepted the utterance: an
   * accepted turn clears an earlier `error` mode and keeps the response; a
   * rejected one sets `error` and the fixed rejection. Nothing else changes.
   */
  function ValidateTopic(s: State, accepted: bool): (t: State)
    ensures t.mode == Error <==> !accepted
    ensures accepted ==> t.mode == Heal(s.mode) && t.finalResponse == s.finalResponse
    ensures !accepted ==> t.finalResponse == Some(Canned(OffTopic))
    ensures t == s.(mode := t.mode, finalResponse := t.finalResponse)
  {
    if accepted then s.(mode := Heal(s.mode))
    else s.(finalResponse := Some(Canned(OffTopic)), mode := Error)
  }

  /**
   * The intent classifier's reply of `route_intent`, stripped and lowercased,
   * selects the application only when it is exactly `application`; `qa` and any
   * other reply mean questions.
   */
  predicate WantsApplication(reply: string) {
    Lower(Strip(reply)) == "application"
  }

  /** `route_intent`, given the classifier's choice: the mode becomes `application` or `qa`, never `error`. */
  function RouteIntent(s: State, application: bool): (t: State)
    ensures t.mode == QA || t.mode == Application
    ensures t.mode == Application <==> application
    ensures t == s.(mode := t.mode)
  {
    s.(mode := if application then Application else QA)
  }

  // ---------------------------------------------------------------- question answering

  /** `retrieve_documents`: the retriever's passages are kept, and joined by blank lines as the context. */
  function RetrieveDocuments(s: State, docs: seq<string>): (t: State)
    ensures t.retrievedDocs == Some(docs) && t.context.Some?
    ensures |docs| == 1 ==> t.context == Some(docs[0])
    ensures t == s.(retrievedDocs := t.retrievedDocs, context := t.context)
  {
    s.(retrievedDocs := Some(docs), context := Some(Join(docs, "\n\n")))
  }

  /**
   * `check_relevance`, given whether the relevance classifier said yes (`SaysYes`
   * of its reply): without a yes the context is discarded.
   */
  function CheckRelevance(s: State, relevant: bool): (t: State)
    ensures relevant ==> t == s
    ensures !relevant ==> t == s.(context := None)
  {
    if relevant then s else s.(context := None)
  }

  /** `answer_question`: the model's answer becomes the response. */
  function AnswerQuestion(s: State, answer: string): (t: State)
    ensures t.finalResponse == Some(Generated(answer))
    ensures t == s.(finalResponse := t.finalResponse)
  {
    s.(finalResponse := Some(Generated(answer)))
  }

  // ---------------------------------------------------------------- the application

  /** `start_application`: the application begins at the credit score question. */
  function StartApplication(s: State): (t: State)
    ensures t.step == Some(CreditScore) && t.finalResponse == Some(Canned(StartPrompt))
    ensures t == s.(step := t.step, finalResponse := t.finalResponse)
  {
    s.(finalResponse := Some(Canned(StartPrompt)), step := Some(CreditScore))
  }

  /** Scores below this are subprime. */
  const SubprimeThreshold: int := 620

  /**
   * `process_credit_score`, once `extract_number` has read the model's reply as
   * `reading`: an extracted score is truncated to an integer and
   * stored; below 620 the applicant is asked to confirm, otherwise the next
   * question is the home value. Without a number the question is asked again
   * and no slot changes.
   */
  function ProcessCreditScore(s: State, reading: Option<real>): (t: State)
    ensures reading.None? ==> t.step == Some(CreditScore) && SlotsOf(t) == SlotsOf(s)
    ensures reading.Some? ==>
      var score := Trunc(reading.value);
      && t.creditScore == Some(score)
      && (score < SubprimeThreshold ==> t.step == Some(SubprimeConfirmation))
      && (score >= SubprimeThreshold ==> t.step == Some(HomeValue))
    ensures t == s.(creditScore := t.creditScore, finalResponse := t.finalResponse, step := t.step)
  {
    match reading
    case Some(x) =>
      var score := Trunc(x);
      if score < SubprimeThreshold then
        s.(creditScore := Some(score), finalResponse := Some(Canned(SubprimeWarning)), step := Some(SubprimeConfirmation))
      else
        s.(creditScore := Some(score), finalResponse := Some(Canned(AskHomeValue)), step := Some(HomeValue))
    case None =>
      s.(finalResponse := Some(Canned(InvalidCreditScore)), step := Some(CreditScore))
  }

  /** The answers taken as "yes, continue". */
  const Affirmatives: set<string> := {"yes", "y", "continue", "proceed"}

  /** The utterance, stripped and lowercased, is one of the affirmative answers. */
  predicate Affirmative(input: string) {
    Lower(Strip(input)) in Affirmatives
  }

  /**
   * `process_subprime_confirmation`, given whether the utterance is `Affirmative`:
   * a yes records the choice and moves on to the home value; anything else
   * records the refusal and ends the application. It never asks again.
   */
  function ProcessSubprimeConfirmation(s: State, proceed: bool): (t: State)
    ensures t.subprimeContinue == Some(proceed)
    ensures t.step == Some(if proceed then HomeValue else Ended)
    ensures t == s.(subprimeContinue := t.subprimeContinue, finalResponse := t.finalResponse, step := t.step)
  {
    if proceed then
      s.(subprimeContinue := Some(true), finalResponse := Some(Canned(ContinuePrompt)), step := Some(HomeValue))
    else
      s.(subprimeContinue := Some(false), finalResponse := Some(Canned(Decline)), step := Some(Ended))
  }

  /** `process_home_value`, given the `extract_number` reading: the value, truncated, is stored and the down payment is asked for. */
  function ProcessHomeValue(s: State, reading: Option<real>): (t: State)
    ensures reading.None? ==> t.step == Some(HomeValue) && SlotsOf(t) == SlotsOf(s)
    ensures reading.Some? ==>
      t.step == Some(DownPayment) && t.homeValue == Some(Trunc(reading.value))
    ensures t == s.(homeValue := t.homeValue, finalResponse := t.finalResponse, step := t.step)
  {
    match reading
    case Some(x) => s.(homeValue := Some(Trunc(x)), finalResponse := Some(Canned(AskDownPayment)), step := Some(DownPayment))
    case None => s.(finalResponse := Some(Canned(InvalidHomeValue)), step := Some(HomeValue))
  }

  /**
   * `process_down_payment`, once `DownPaymentAmount` has read the model's tagged
   * reply: a down payment is stored and the loan amount becomes the home value
   * minus the down payment, with no bound checked (it may be negative); then the
   * income is asked for. Without an amount the question is asked again and no
   * slot changes. Subtracting from a missing home value fails outside the
   * source's `try`, so an amount needs a home value.
   */
  function ProcessDownPayment(s: State, amount: Option<int>): (t: State)
    requires amount.Some? ==> s.homeValue.Some?
    ensures amount.None? ==> t.step == Some(DownPayment) && SlotsOf(t) == SlotsOf(s)
    ensures amount.Some? ==>
      t.step == Some(Income) && t.downPayment == amount && t.loanAmount == Some(s.homeValue.value - amount.value)
    ensures t == s.(downPayment := t.downPayment, loanAmount := t.loanAmount,
                    finalResponse := t.finalResponse, step := t.step)
  {
    if amount.Some? then
      s.(downPayment := amount, loanAmount := Some(s.homeValue.value - amount.value),
         finalResponse := Some(Canned(AskIncome)), step := Some(Income))
    else
      s.(finalResponse := Some(Canned(InvalidDownPayment)), step := Some(DownPayment))
  }

  /** `process_income`, given the `extract_number` reading: the annual income, truncated, is stored and the debts are asked for. */
  function ProcessIncome(s: State, reading: Option<real>): (t: State)
    ensures reading.None? ==> t.step == Some(Income) && SlotsOf(t) == SlotsOf(s)
    ensures reading.Some? ==>
      t.step == Some(Debts) && t.income == Some(Trunc(reading.value))
    ensures t == s.(income := t.income, finalResponse := t.finalResponse, step := t.step)
  {
    match reading
    case Some(x) => s.(income := Some(Trunc(x)), finalResponse := Some(Canned(AskDebts)), step := Some(Debts))
    case None => s.(finalResponse := Some(Canned(InvalidIncome)), step := Some(Income))
  }

  /** `process_debts`, given the `extract_number` reading: the monthly debts are stored as they are (not truncated) and the term is asked for. */
  function ProcessDebts(s: State, reading: Option<real>): (t: State)
    ensures reading.None? ==> t.step == Some(Debts) && SlotsOf(t) == SlotsOf(s)
    ensures reading.Some? ==> t.step == Some(LoanTerm) && t.debts == reading
    ensures t == s.(debts := t.debts, finalResponse := t.finalResponse, step := t.step)
  {
    match reading
    case Some(x) => s.(debts := Some(x), finalResponse := Some(Canned(AskLoanTerm)), step := Some(LoanTerm))
    case None => s.(finalResponse := Some(Canned(InvalidDebts)), step := Some(Debts))
  }

  /**
   * The term chosen by an utterance: `15` is looked for before `30`, as
   * substrings of the stripped text, so a text holding both chooses 15.
   */
  function TermChoice(input: string): (r: Option<int>)
    ensures r.Some? ==> r.value == 15 || r.value == 30
    ensures r == Some(15) <==> Contains(Strip(input), "15")
    ensures r == Some(30) <==> !Contains(Strip(input), "15") && Contains(Strip(input), "30")
  {
    var text := Strip(input);
    if Contains(text, "15") then Some(15)
    else if Contains(text, "30") then Some(30)
    else None
  }

  /** Everything the two ratios are computed from is present, and neither divisor is zero. */
  predicate RatiosDefined(s: State) {
    && s.loanAmount.Some? && s.homeValue.Some? && s.homeValue.value != 0
    && s.income.Some? && s.income.value != 0 && s.debts.Some?
  }

  /** The loan-to-value ratio in percent: loan amount over home value. */
  function Ltv(s: State): real
    requires RatiosDefined(s)
  {
    s.loanAmount.value as real / s.homeValue.value as real * 100.0
  }

  /** The debt-to-income ratio in percent: monthly debts over a twelfth of the annual income. */
  function Dti(s: State): real
    requires RatiosDefined(s)
  {
    s.debts.value / (s.income.value as real / 12.0) * 100.0
  }

  /** The figures the two summaries show. */
  function FiguresOf(s: State): (f: Figures)
    requires RatiosDefined(s)
    ensures f.creditScore == s.creditScore && f.loanTerm == s.loanTerm
    ensures f.loanAmount == s.loanAmount.value && f.homeValue == s.homeValue.value
    ensures f.ltv == Ltv(s) && f.dti == Dti(s)
  {
    Figures(s.creditScore, s.loanAmount.value, s.homeValue.value, Ltv(s), Dti(s), s.loanTerm)
  }

  /**
   * `process_loan_term`, given the term `TermChoice` finds in the utterance: the
   * term is stored, the summary shows the figures with that term and the rate is
   * offered next; without a term the question is asked again and no slot changes.
   */
  function ProcessLoanTerm(s: State, choice: Option<int>): (t: State)
    requires choice.Some? ==> RatiosDefined(s)
    ensures t == s.(loanTerm := t.loanTerm, finalResponse := t.finalResponse, step := t.step)
    ensures choice.None? ==> t.step == Some(LoanTerm) && SlotsOf(t) == SlotsOf(s)
    ensures choice.Some? ==>
      && t.step == Some(Step.CalculateRate) && t.loanTerm == choice
      && t.finalResponse == Some(TermSummary(FiguresOf(t)))
  {
    match choice
    case Some(term) =>
      var u := s.(loanTerm := Some(term));
      u.(finalResponse := Some(TermSummary(FiguresOf(u))), step := Some(Step.CalculateRate))
    case None =>
      s.(finalResponse := Some(Canned(InvalidLoanTerm)), step := Some(LoanTerm))
  }

  // ---------------------------------------------------------------- the rate

  /** The text handed to the rate tool: score, both ratios to one decimal, and term. */
  function ToolInput(s: State): string
    requires RatiosDefined(s)
  {
    OptIntText(s.creditScore) + "," + Fixed1(Ltv(s)) + "," + Fixed1(Dti(s)) + "," + OptIntText(s.loanTerm)
  }

  /**
   * The number the pattern `(\d+\.\d+)%` finds in the tool's answer: the digits
   * of a reported rate, without its sign; the other answers hold no such number.
   */
  function ScrapedRate(a: Answer): (r: Option<real>)
    ensures r.Some? <==> a.Found?
    ensures r.Some? ==> r.value >= 0.0 && Abs(a.rate) - 0.0005 <= r.value <= Abs(a.rate) + 0.0005
  {
    match a
    case Found(rate) => Some(Magnitude3(rate))
    case _ => None
  }

  /**
   * `calculate_rate`, once the rate tool has answered `answer` to `ToolInput(s)`:
   * a rate the tool reports is stored (its digits, as the pattern finds them),
   * the reply reports the figures and the tool's answer, and the application
   * ends whatever the tool answered.
   */
  function CalculateRate(s: State, answer: Answer): (t: State)
    requires RatiosDefined(s)
    ensures t.step == Some(Ended)
    ensures t.calculatedRate == if answer.Found? then Some(Magnitude3(answer.rate)) else s.calculatedRate
    ensures t.finalResponse == Some(RateReport(FiguresOf(s), answer))
    ensures t == s.(calculatedRate := t.calculatedRate, finalResponse := t.finalResponse, step := t.step)
  {
    var rate := ScrapedRate(answer);
    s.(calculatedRate := if rate.Some? then rate else s.calculatedRate,
       finalResponse := Some(RateReport(FiguresOf(s), answer)),
       step := Some(Ended))
  }

  /** An optional integer's text is a comma-free field with no whitespace at either end. */
  lemma OptIntTextField(o: Option<int>)
    ensures var t := OptIntText(o); Count(t, ',') == 0 && |t| > 0 && !IsSpace(t[0]) && !IsSpace(t[|t| - 1])
  {
    if o.Some? {
      IntToStringChars(o.value);
      NumberCharsCommaFree(IntToString(o.value));
    } else {
      CountZero("None", ',');
    }
  }

  /** The tool cuts its input back into the four figures `calculate_rate` formatted. */
  lemma ToolInputFields(s: State)
    requires RatiosDefined(s)
    ensures Split(Strip(ToolInput(s)), ',') ==
      [OptIntText(s.creditScore), Fixed1(Ltv(s)), Fixed1(Dti(s)), OptIntText(s.loanTerm)]
  {
    OptIntTextField(s.creditScore);
    OptIntTextField(s.loanTerm);
    Fixed1Chars(Ltv(s));
    Fixed1Chars(Dti(s));
    NumberCharsCommaFree(Fixed1(Ltv(s)));
    NumberCharsCommaFree(Fixed1(Dti(s)));
    JoinedFields(OptIntText(s.creditScore), Fixed1(Ltv(s)), Fixed1(Dti(s)), OptIntText(s.loanTerm));
  }

  /** The tool reads the formatted fields back as the score, the rounded ratios and the term. */
  lemma FormattedFields(score: int, ltv: real, dti: real, term: int)
    ensures ParseFields([IntToString(score), Fixed1(ltv), Fixed1(dti), IntToString(term)])
         == Success(Query(score, Rounded1(ltv), Rounded1(dti), term))
  {
    IntRoundTrip(score);
    IntRoundTrip(term);
    Fixed1RoundTrip(ltv);
    Fixed1RoundTrip(dti);
    FieldsOfQuery(IntToString(score), Fixed1(ltv), Fixed1(dti), IntToString(term),
                  Query(score, Rounded1(ltv), Rounded1(dti), term));
  }

  /**
   * The tool is asked with the ratios rounded to one decimal: when the score and
   * term are present it answers with the lookup of exactly those figures.
   */
  lemma ToolSeesRoundedRatios(s: State, table: seq<RateRule>)
    requires RatiosDefined(s) && s.creditScore.Some? && s.loanTerm.Some?
    ensures Decide(ToolInput(s), table) ==
      RateAnswer(Calculate(table, Query(s.creditScore.value, Rounded1(Ltv(s)), Rounded1(Dti(s)), s.loanTerm.value)))
  {
    ToolInputFields(s);
    FormattedFields(s.creditScore.value, Ltv(s), Dti(s), s.loanTerm.value);
  }

  /**
   * The rate stored by `calculate_rate`: the rate of the first rule matching the
   * score, the rounded ratios and the term, to three decimals and unsigned, when
   * there is one and it is not zero; otherwise the slot keeps its old value.
   */
  lemma CalculateRateStores(s: State, table: seq<RateRule>)
    requires RatiosDefined(s) && s.creditScore.Some? && s.loanTerm.Some?
    ensures var found := Calculate(table, Query(s.creditScore.value, Rounded1(Ltv(s)), Rounded1(Dti(s)), s.loanTerm.value));
      CalculateRate(s, Decide(ToolInput(s), table)).calculatedRate ==
        if found.Some? && found.value != 0.0 then Some(Magnitude3(found.value)) else s.calculatedRate
  {
    ToolSeesRoundedRatios(s, table);
  }

  /** `int("None")` fails. */
  lemma NoneIsNoInt()
    ensures ParseInt("None") == None
  {
    NoneText("None");
  }

  lemma NoneText(n: string)
    requires n == ['N', 'o', 'n', 'e']
    ensures ParseInt(n) == None
  {
    StripUnchanged(n);
    assert !IsDigit(n[0]);
  }

  /**
   * Without a credit score the f-string sends `None` as the first field: the tool
   * reports that it is not an integer, and no rate is stored.
   */
  lemma CalculateRateWithoutScore(s: State, table: seq<RateRule>)
    requires RatiosDefined(s) && s.creditScore.None?
    ensures Decide(ToolInput(s), table) == FieldError(IntError("None"))
    ensures CalculateRate(s, Decide(ToolInput(s), table)).calculatedRate == s.calculatedRate
  {
    ToolInputFields(s);
    NoneIsNoInt();
  }
}
