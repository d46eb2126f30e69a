/**
 * The replies the workflow gives the user. The fixed sentences are named by a
 * `Message`; the two summaries carry the figures they show and are rendered
 * with the source's f-string formatting by `ReplyText`.
 */
module Responses {
  import opened Wrappers
  import opened Text
  import opened Numbers
  import opened RateTool

  /** The fixed sentences of the nodes. */
  datatype Message =
    | OffTopic
    | StartPrompt
    | SubprimeWarning
    | AskHomeValue
    | InvalidCreditScore
    | ContinuePrompt
    | Decline
    | AskDownPayment
    | InvalidHomeValue
    | AskIncome
    | InvalidDownPayment
    | AskDebts
    | InvalidIncome
    | AskLoanTerm
    | InvalidDebts
    | InvalidLoanTerm

  /** The text of each fixed sentence. */
  function MessageText(m: Message): string {
    match m
    case OffTopic =>
      "Sorry, I am only an expert in loan and mortgage related things. Please ask a question related to that or let me know if you want to start an application."
    case StartPrompt => "Great! Let's start your mortgage application. First, what is your credit score?"
    case SubprimeWarning =>
      "Score below 620 is considered subprime and is much harder to approve. You should improve your credit score first, but if you want to continue the process, we can. Do you want to continue? (yes/no)"
    case AskHomeValue => "Great! What is the estimated home value/price?"
    case InvalidCreditScore => "Please enter a valid credit score (numeric value)."
    case ContinuePrompt => "Understood. Let's continue. What is the estimated home value/price?"
    case Decline =>
      "I understand. I'd recommend working on improving your credit score before applying. Feel free to come back when you're ready!"
    case AskDownPayment => "How much down payment can you make?"
    case InvalidHomeValue => "Please enter a valid home value (numeric value)."
    case AskIncome => "What is your annual income?"
    case InvalidDownPayment => "Please enter a valid down payment amount (either a dollar amount or percentage)."
    case AskDebts => "What are your total monthly debt payments?"
    case InvalidIncome => "Please enter a valid annual income (numeric value)."
    case AskLoanTerm => "What loan term do you prefer? (15 or 30 years)"
    case InvalidDebts => "Please enter a valid monthly debt amount (numeric value)."
    case InvalidLoanTerm => "Please choose either 15 or 30 years."
  }

  /** The sentences that ask the same question again after an answer that could not be used. */
  predicate IsReprompt(m: Message) {
    m.InvalidCreditScore? || m.InvalidHomeValue? || m.InvalidDownPayment? || m.InvalidIncome?
    || m.InvalidDebts? || m.InvalidLoanTerm?
  }

  /** The figures a summary shows; the two ratios are in percent and unrounded. */
  datatype Figures = Figures(
    creditScore: Option<int>,
    loanAmount: int,
    homeValue: int,
    ltv: real,
    dti: real,
    loanTerm: Option<int>)

  /**
   * A reply: a fixed sentence, the model's generated answer, the summary the
   * loan-term step shows, or the rate report with the tool's answer in it.
   */
  datatype Reply =
    | Canned(message: Message)
    | Generated(text: string)
    | TermSummary(figures: Figures)
    | RateReport(figures: Figures, answer: Answer)

  /** An optional integer as an f-string shows it. */
  function OptIntText(o: Option<int>): string {
    match o
    case Some(i) => IntToString(i)
    case None => "None"
  }

  /** The summary `process_loan_term` shows before offering the rate. */
  function TermSummaryText(f: Figures): string {
    "Got it! We can see if you will be approved or not.\n\nCredit Score: " + OptIntText(f.creditScore)
    + "\n\nLoan Amount: " + Grouped(f.loanAmount)
    + "\n\nHome Value: " + Grouped(f.homeValue)
    + "\n\nLTV: " + Fixed1(f.ltv) + "%\n\nDTI: " + Fixed1(f.dti)
    + "%\n\nLoan Term: " + OptIntText(f.loanTerm) + " years\n\nWould you like to see your rate?"
  }

  /** The summary `calculate_rate` puts before the tool's answer. */
  function RateSummaryText(f: Figures): string {
    "Thank you! Based on your information:\n\nCredit Score: " + OptIntText(f.creditScore)
    + "\nLoan Amount: " + Grouped(f.loanAmount)
    + "\nHome Value: $" + Grouped(f.homeValue)
    + "\nLTV: " + Fixed1(f.ltv) + "%\nDTI: " + Fixed1(f.dti)
    + "%\nLoan Term: " + OptIntText(f.loanTerm) + " years"
  }

  function Closing(): string {
    " Let me know if you have any other questions!"
  }

  /**
   * `if rate:` after the pattern `(\d+\.\d+)%` was looked for in the tool's
   * answer: only a reported rate holds such a number, and the number found is
   * the rate's digits, unsigned; a zero counts as no rate.
   */
  predicate Closes(a: Answer) {
    a.Found? && Magnitude3(a.rate) != 0.0
  }

  /** The text of a reply. */
  function ReplyText(r: Reply): string {
    match r
    case Canned(m) => MessageText(m)
    case Generated(answer) => answer
    case TermSummary(f) => TermSummaryText(f)
    case RateReport(f, a) => RateReportText(f, a)
  }

  /** The rate report: the summary, a blank line, the tool's sentence, and the closing sentence after a rate. */
  function RateReportText(f: Figures, a: Answer): string {
    var report := RateSummaryText(f) + "\n\n" + Render(a);
    if Closes(a) then report + Closing() else report
  }

  /**
   * The rate report is the summary, a blank line and the tool's sentence word
   * for word, followed by the closing sentence exactly when the tool reported a
   * rate whose three-decimal reading is non-zero, and by nothing otherwise.
   */
  lemma RateReportShape(f: Figures, a: Answer)
    ensures var text := RateReportText(f, a);
      var report := RateSummaryText(f) + "\n\n" + Render(a);
      && StartsWith(text, report)
      && |text| == |report| + (if Closes(a) then |Closing()| else 0)
      && text[|report|..] == (if Closes(a) then Closing() else "")
  {
    var report := RateSummaryText(f) + "\n\n" + Render(a);
    if Closes(a) {
      assert (report + Closing())[..|report|] == report;
      assert (report + Closing())[|report|..] == Closing();
    } else {
      assert report[..|report|] == report;
    }
  }

  /** A tool answer without a rate, or with a zero one, is reported without the closing sentence. */
  lemma NoRateNoClosing(f: Figures, a: Answer)
    requires !a.Found? || a.rate == 0.0
    ensures RateReportText(f, a) == RateSummaryText(f) + "\n\n" + Render(a)
  {
  }
}
