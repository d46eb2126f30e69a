# Mortgage assistant: the deterministic core, in Dafny

The mortgage assistant is a chat agent built as a LangGraph state graph. One
user message is one turn. Each turn enters at `check_app_step` and does one of
two things:

- If an application is in progress, it resumes at the handler of the stored
  `application_step`.
- Otherwise it checks the topic, classifies the intent, and then either answers
  the question from retrieved documents or starts the application.

The application asks, in order, for:

1. credit score (with a confirmation below 620),
2. home value,
3. down payment (an amount or a percentage),
4. income,
5. monthly debts,
6. loan term.

It then prices the loan with a rate tool. The tool parses a comma-joined text
and does a first-match scan of a rate table.

This project models that core as pure functions over an immutable `State`:

- **Wrappers**: `Option` and `Result`.
- **Text**: the Python `str` operations the agent uses. These are `strip`,
  `lower`/`upper`, `in`, `startswith`, `split` and `join`.
- **Numbers**: `int()` and `float()` on strings, `int(x)` truncation, the `.1f`
  and `.3f` formats and the `:,` grouping.
- **RateCalculator**: `RateCalculator.calculate` (the first-match scan) and
  `_load_matrix` (keep the rows that parse, in order).
- **RateTool**: `calculate_mortgage_rate`. It has two layers:
  - a decision `Answer`: bad format, field error, a rate, or none;
  - its rendering as the tool's sentence.
- **Responses**: the replies. A reply is either a named fixed sentence, the
  generated answer, or one of the two summaries with the figures they show.
- **AgentState**: the state, the step and mode enumerations, and the slots.
- **Extraction**: the post-processing of the model's replies. This covers
  `extract_number` after the model call and the `AMOUNT:`/`PERCENT:` down-payment
  tags.
- **Nodes**: one function per graph node. The model's and the retriever's
  answers arrive as parameters.
- **Workflow**: the edge table, plus two descriptions of one turn:
  - a graph interpreter `Run` with its loop version `Invoke`;
  - a direct description `Turn`.

  `RunIsTurn` proves the two agree.
- **StateMachine**: properties across turns:
  - the step table;
  - re-prompts leave the slots alone;
  - the slot invariant is preserved;
  - chat turns;
  - an in-progress turn ignores the classifiers.
- **Scenarios**: worked examples. These are the subprime boundary, the down
  payment tags, and a whole application replayed turn by turn to its rate.

Each turn's outside answers are gathered in `Workflow.Replies`:

- the topic and intent classifier replies;
- the retrieved passages;
- the relevance reply;
- the generated answer;
- the extraction reply.

`Workflow.Read` turns them into the `Reading` that the nodes act on. The rate
tool is a parameter of the turn. The deployed tool is
`DeployedTool(table)`, and the rate table is the list of rows the CSV file held.

## Model

| member | source | states |
|---|---|---|
| Extraction.Clean | workflow.py:76-77 | the cleaned reply holds only digits and dots and is no longer than the reply |
| Extraction.CleanAppend | workflow.py:77 | cleaning distributes over concatenation, so it is a character-by-character filter |
| Extraction.CleanKeeps | workflow.py:77 | a text of digits and dots is left unchanged by cleaning |
| Extraction.CleanDrops | workflow.py:77 | any character other than a digit or a dot is dropped wherever it occurs |
| Extraction.ExtractNumber | workflow.py:71-82 | "NONE" in any letter case gives no number; otherwise a number comes back exactly when the cleaned reply has at most one dot and at least one digit; a number returned is never negative |
| Extraction.ReadCleaned | workflow.py:79-82 | on a cleaned reply: `float` succeeds exactly for at most one dot and some digit, and a dot-free reply reads as its decimal value; an empty reply gives none |
| Extraction.ExtractDigits | workflow.py:71-82 | a reply made only of digits extracts to its decimal value |
| Extraction.ExtractPoint | workflow.py:71-82 | a reply `w.f` of digits around one point reads as the digits of `w` and `f` scaled down by one power of ten per fraction digit |
| Extraction.ExtractNat | workflow.py:71-82 | the decimal text of any natural number extracts back to that number |
| Extraction.DownPaymentAmount | workflow.py:306-320 | an amount comes back only for a reply starting with `AMOUNT:`, or one starting with `PERCENT:` when a home value is known |
| Extraction.UntaggedFails | workflow.py:308-320 | a reply with neither tag gives no down payment |
| Extraction.TagFieldAfter | workflow.py:312 | `split(":")[1]` of a tagged reply is the text after the tag, up to the next colon |
| Extraction.AmountReply | workflow.py:310-314 | `AMOUNT:x` gives `int(float(x))` (truncated) when `x` parses, and nothing otherwise |
| Extraction.PercentReply | workflow.py:315-320 | `PERCENT:p` gives `int(p/100*home_value)` when `p` parses and a home value is known, and nothing otherwise |
| Extraction.PercentTruncates | workflow.py:315-320 | with a home value, a `PERCENT:p` reply gives a down payment exactly when `p` parses; for non-negative `p` and home value it is the exact share truncated: never above it and less than one below it |
| Nodes.KeywordSkipsClassifier | workflow.py:87-94 | an utterance with one of the eight keywords is accepted whatever the classifier replies |
| Nodes.ClassifierDecides | workflow.py:96-108 | without a keyword, the topic is accepted exactly when the stripped, lower-cased reply is `yes` |
| Nodes.Heal | workflow.py:92-93 | an `error` mode becomes `qa`, and any other mode is kept |
| Nodes.ValidateTopic | workflow.py:85-116 | the mode becomes `error` exactly when the topic is rejected, and only then is the rejection text set; an accepted topic heals the mode and leaves the response; nothing else changes |
| Nodes.RouteIntent | workflow.py:118-149 | the mode is always `qa` or `application`, and it is `application` exactly when the reply says so; nothing else changes |
| Nodes.RetrieveDocuments | workflow.py:151-159 | the passages are stored and the context is their join (a single passage is the context itself); nothing else changes |
| Nodes.CheckRelevance | workflow.py:161-186 | a relevant verdict leaves the state unchanged; otherwise only the context is cleared |
| Nodes.AnswerQuestion | workflow.py:188-224 | the generated answer becomes the response, and nothing else changes |
| Nodes.StartApplication | workflow.py:226-231 | the step becomes `credit_score` with the start prompt, and nothing else changes |
| Nodes.ProcessCreditScore | workflow.py:233-251 | the score is stored truncated; below 620 it goes to the subprime confirmation, at 620 or above to the home value; without a number the step stays and no slot changes |
| Nodes.ProcessSubprimeConfirmation | workflow.py:253-266 | the answer is recorded, and the step goes to the home value after yes and ends otherwise; it never re-prompts |
| Nodes.ProcessHomeValue | workflow.py:268-280 | the truncated value is stored and the down payment is next; without a number the step stays and no slot changes |
| Nodes.ProcessDownPayment | workflow.py:322-332 | the down payment is stored with loan = home value − down payment, unbounded, and income is next; without an amount the step stays and no slot changes |
| Nodes.ProcessIncome | workflow.py:334-346 | the truncated income is stored and debts are next; without a number the step stays and no slot changes |
| Nodes.ProcessDebts | workflow.py:348-360 | the debts are stored as read and the loan term is next; without a number the step stays and no slot changes |
| Nodes.TermChoice | workflow.py:364-373 | the term is 15 exactly when the stripped input contains "15", and 30 exactly when it contains "30" but not "15"; no other term is chosen |
| Nodes.FiguresOf | workflow.py:375-379 | the summary shows the state's score, loan, home value and term with LTV = loan/home·100 and DTI = debts/(income/12)·100 |
| Nodes.ProcessLoanTerm | workflow.py:362-382 | with a term, the term is stored, the summary shows the figures with it, and the rate is next; without one the step stays and no slot changes |
| Nodes.ScrapedRate | workflow.py:395-398 | the pattern finds a number exactly in a reported rate, and that number is the rate's magnitude to three decimals |
| Nodes.CalculateRate | workflow.py:384-409 | the application always ends; a reported rate is stored, and otherwise the stored rate is kept; the response reports the figures and the tool's answer |
| Nodes.ToolInputFields | workflow.py:392 | the tool input splits back into score, LTV to one decimal, DTI to one decimal, and term |
| Nodes.FormattedFields | workflow.py:392 | the four formatted fields parse back to the query with both ratios rounded to one decimal |
| Nodes.ToolSeesRoundedRatios | workflow.py:387-393 | the deployed tool answers the lookup of the score, the ratios rounded to one decimal, and the term |
| Nodes.CalculateRateStores | workflow.py:387-399 | the stored rate is the table's first match on the rounded ratios when it is non-zero, and otherwise the previous value is kept |
| Nodes.CalculateRateWithoutScore | workflow.py:392-399 | with no credit score the tool reports `int('None')` failing, and no rate is stored |
| Numbers.NatToStringValue | workflow.py:379 | the decimal text of a number reads back as that number |
| Numbers.IntRoundTrip | tools/rate_tool.py:13 | `int(str(i)) == i` for every integer |
| Numbers.FloatOfDigits | workflow.py:80 | `float` of a non-empty string of digits is its decimal value |
| Numbers.PointValue | workflow.py:80 | `float` of `w.f` is the digits of `w` and `f` scaled down by one power of ten per fraction digit |
| Numbers.DigitsAndDotsParse | workflow.py:80-82 | on digits and dots, `float` succeeds exactly when there is at most one dot and at least one digit |
| Numbers.DigitsAndDotsValue | workflow.py:80 | on digits and dots, a parsed value is never negative, and without a dot it is the decimal value |
| Numbers.SplitLiteralUnique | workflow.py:80 | a numeric literal splits uniquely into whole part, dot, fraction and rest |
| Numbers.Trunc | workflow.py:238 | `int(x)` truncates toward zero |
| Numbers.RoundHalfEven | workflow.py:379 | formatting rounds to the nearest value, ties to even |
| Numbers.Fixed1RoundTrip | workflow.py:392 | `float(f"{x:.1f}")` is `x` rounded to one decimal |
| Numbers.Rounded1 | workflow.py:392 | one-decimal rounding moves a value by at most 0.05 |
| Numbers.Fixed3RoundTrip | tools/rate_tool.py:29 | `float(f"{x:.3f}")` is `x` rounded to three decimals |
| Numbers.Rounded3 | tools/rate_tool.py:29 | three-decimal rounding moves a value by at most 0.0005 |
| Numbers.Magnitude3 | workflow.py:396-398 | the unsigned three-decimal reading of a rate is within 0.0005 of its absolute value |
| Numbers.GroupedNatDigits | workflow.py:379 | a comma-grouped number with its commas removed is the number's digits |
| Numbers.IntToStringChars | workflow.py:392 | an integer's text has no comma and no surrounding whitespace |
| RateCalculator.Calculate | services/rate_calculator.py:53-64 | none exactly when no rule matches; otherwise the rate of the first matching rule, every earlier rule failing |
| RateCalculator.Scan | services/rate_calculator.py:53-64 | the loop computes the same first-match result |
| RateCalculator.FirstMatchUnique | services/rate_calculator.py:57-62 | at most one rule is the first match |
| RateCalculator.CalculateFirstMatch | services/rate_calculator.py:57-62 | the first match's rate is the result |
| RateCalculator.CalculateAppend | services/rate_calculator.py:57-64 | the scan of two tables is the first table's answer if anything there matches, and the second's otherwise |
| RateCalculator.NonMatchingRuleIrrelevant | services/rate_calculator.py:57-62 | a rule that does not match can be removed without changing the answer |
| RateCalculator.BoundsInclusive | services/rate_calculator.py:58-60 | a query exactly at a rule's minimum score and maximum LTV and DTI matches it |
| RateCalculator.TermExact | services/rate_calculator.py:61 | a term no rule has finds no rate |
| RateCalculator.Monotone | services/rate_calculator.py:58-61 | a better score, LTV or DTI with the same term still finds a rate |
| RateCalculator.ParseRow | services/rate_calculator.py:28-36 | a row parses only when all five columns are present |
| RateCalculator.ParseRowOf | services/rate_calculator.py:29-35 | a row whose five cells parse becomes the rule of those values |
| RateCalculator.RuleRowRoundTrip | services/rate_calculator.py:29-35 | a row written from a rule's figures parses back to that rule |
| RateCalculator.LoadMatrix | services/rate_calculator.py:27-38 | the table is no longer than the file, and each of its rules comes from a row that parses |
| RateCalculator.LoadAppend | services/rate_calculator.py:27-37 | loading keeps file order: the rules of two files are the first's followed by the second's |
| RateCalculator.LoadSingle | services/rate_calculator.py:28-37 | a single row contributes its rule if it parses, and nothing if it does not |
| RateCalculator.LoadAllValid | services/rate_calculator.py:27-38 | when every row parses, the table is the rows' rules one for one |
| RateTool.IntField | tools/rate_tool.py:13 | `int` of a field succeeds exactly when it parses; otherwise the error carries the field |
| RateTool.RealField | tools/rate_tool.py:14-15 | `float` of a field succeeds exactly when it parses; otherwise the error carries the field |
| RateTool.ParseFieldsOrder | tools/rate_tool.py:13-16 | the fields parse exactly when each does, and they form the query in the order score, LTV, DTI, term |
| RateTool.FieldErrorReported | tools/rate_tool.py:13-16 | the first field in that order that fails is the one reported |
| RateTool.RateAnswer | tools/rate_tool.py:28-31 | no rate, or a zero rate, gives the not-found answer; any other rate is reported as found |
| RateTool.InvalidFormatIff | tools/rate_tool.py:9-11 | the format is rejected exactly when the stripped input does not hold three commas |
| RateTool.BadFormatIgnoresTable | tools/rate_tool.py:9-11 | a rejected format gives the invalid-format text whatever the table holds |
| RateTool.InvalidFormatText | tools/rate_tool.py:10-11 | the tool returns the invalid-format text exactly for a bad format |
| RateTool.NotFoundText | tools/rate_tool.py:30-31 | the tool returns the not-found text exactly when no non-zero rate was found |
| RateTool.RenderKinds | tools/rate_tool.py:28-34 | the four kinds of answer render to texts with different last characters |
| RateTool.DecideErrorShape | tools/rate_tool.py:13-16 | every field error is an `int` or `float` conversion message |
| RateTool.RateMessageReadsBack | tools/rate_tool.py:29 | the rate sentence holds the rate to three decimals, which reads back as the rounded rate |
| RateTool.ToolAnswersLookup | tools/rate_tool.py:9-31 | four comma-free fields that parse to a query are answered with the lookup of that query |
| RateTool.JoinedFields | tools/rate_tool.py:9 | the stripped, comma-joined fields split back into those fields |
| Responses.RateReportShape | workflow.py:401-406 | the report is the summary, a blank line and the tool's sentence word for word, followed by the closing sentence when the tool reported a rate whose three-decimal reading is non-zero, and by nothing otherwise |
| Responses.NoRateNoClosing | workflow.py:403-406 | without a non-zero rate the report has no closing sentence |
| Text.Strip | workflow.py:71 | the stripped text neither starts nor ends with whitespace |
| Text.StripIdempotent | workflow.py:71 | stripping twice is stripping once |
| Text.Lower | workflow.py:87 | lower-casing maps every character and keeps the length |
| Text.SplitCount | tools/rate_tool.py:9 | `split` gives one more part than there are separators |
| Text.SplitJoin | tools/rate_tool.py:9 | joining the parts with the separator gives back the text |
| Text.JoinSplit | tools/rate_tool.py:9 | separator-free parts joined and split again give back the parts |
| Workflow.RouteByAppStep | workflow.py:421-442 | a turn goes to topic validation exactly when no application step is in progress (none or `ended`), and to the step's own handler otherwise |
| Workflow.NextIsDeeper | workflow.py:470-517 | every edge of the graph leads closer to `END`, so a turn terminates |
| Workflow.NextSafe | workflow.py:470-517 | a node that can run leads only to nodes that can run on what it produced |
| Workflow.Run | workflow.py:448-519 | a run of the graph visits its entry node first |
| Workflow.RunTopic | workflow.py:488-495 | a rejected topic ends the turn at validation; otherwise the run goes on to intent routing |
| Workflow.RunRoute | workflow.py:497-509 | the `application` mode starts the application; `qa` retrieves, checks relevance and answers |
| Workflow.RunIsTurn | workflow.py:448-519 | running the graph from `check_app_step` produces the state and the node path of the direct turn description |
| Workflow.HandlerIsTurn | workflow.py:472-486 | with an application in progress, the turn is exactly the step's handler |
| Workflow.RunTopicIsChat | workflow.py:488-509 | from topic validation, the graph does the chat turn |
| Workflow.Invoke | workflow.py:448-519 | the loop that walks the graph from node to node returns the turn's state and its path |
| StateMachine.Successors | workflow.py:233-409 | no step is followed by an earlier one |
| StateMachine.TurnFollowsTable | workflow.py:233-409 | an application turn moves to its own step or a listed successor, never backwards |
| StateMachine.OnlySlotStepsRepeat | workflow.py:247-249 | only the steps that ask for a figure can stay where they are; the subprime and rate steps always move on |
| StateMachine.RepromptKeepsSlots | workflow.py:247-249 | a turn that stays on its step changes nothing but the response |
| StateMachine.RepromptIdempotent | workflow.py:276-278 | replaying a re-prompted turn with the same replies changes nothing further |
| StateMachine.SubprimeTurn | workflow.py:255-265 | at the subprime step, the answer is yes/y/continue/proceed after strip and lower-casing exactly when the application continues; any other answer ends it |
| StateMachine.LoanTermTurn | workflow.py:364-380 | "15" wins over "30", neither re-prompts, and the rate step is reached only with 15 or 30 |
| StateMachine.InitialConsistent | app.py:13-32 | the starting state satisfies the slot invariant and has no application in progress |
| StateMachine.ConsistentDefined | workflow.py:375-377 | in a consistent state with non-zero home value and income, every turn can run: the subtraction and divisions have their operands |
| StateMachine.TurnConsistent | workflow.py:233-409 | every turn preserves the invariant that each step has the slots asked for before it, with loan = home value − down payment and a term of 15 or 30 at the rate step |
| StateMachine.CreditScoreConsistent | workflow.py:233-251 | the credit-score handler preserves the slot invariant |
| StateMachine.DownPaymentConsistent | workflow.py:322-332 | the down-payment handler preserves the slot invariant, loan amount included |
| StateMachine.LoanTermConsistent | workflow.py:362-382 | the loan-term handler preserves the slot invariant |
| StateMachine.ChatSteps | workflow.py:470-509 | outside an application, a turn starts one exactly when the topic is accepted and the intent is `application`; it never touches a slot |
| StateMachine.ChatTopic | workflow.py:108-110 | outside an application, the mode becomes `error` exactly when the topic is rejected, and then only the mode and the rejection text change |
| StateMachine.KeywordNeverRejected | workflow.py:87-116 | an off-topic rejection happens exactly when there is no keyword and the classifier does not say `yes`; a keyword is never rejected |
| StateMachine.HandlerReadsOnly | workflow.py:472-486 | an in-progress turn visits only `check_app_step` and its handler, and depends on no classifier |
| StateMachine.InProgressSkipsChat | workflow.py:421-442 | with an application in progress, the topic, intent, retrieval and relevance replies make no difference to the turn |
| StateMachine.TurnStoresRate | workflow.py:384-409 | with the deployed tool, the rate turn ends the application and stores the first match on the rounded ratios when it is non-zero |
| Scenarios.SubprimeBoundary | workflow.py:238-246 | 619 and 619.9 are subprime (619.9 is stored as 619); 620 goes on to the home value |
| Scenarios.PercentExample | workflow.py:315-318 | `PERCENT:10` on a 300,000 home is a down payment of 30,000 |
| Scenarios.PercentWithoutHome | workflow.py:315-320 | a percentage without a home value gives no down payment |
| Scenarios.AmountExample | workflow.py:310-312 | `AMOUNT:` followed by the digits of any natural number `n` is a down payment of `n`, whatever the home value |
| Scenarios.PointExample | workflow.py:350-353 | a debts reply of `450.75` is read as 450.75, to the cent |
| Scenarios.RatioExample | workflow.py:375-377 | a 240,000 loan on a 300,000 home with 2,000 monthly debts on a 120,000 income is 80% LTV and 20% DTI |
| Scenarios.ConversationRun | workflow.py:226-409 | any eight messages, each set as `user_input` and read through `Read`, whose classifier replies ask to apply, whose extraction replies are 700, 300,000, `AMOUNT:60000`, 120,000 and 2,000, and whose seventh utterance chooses 30 years, take a state outside an application to its end with the table's 6.5% rate, score 700, loan 240,000 and a 30-year term |
| Scenarios.ApplicationRun | app.py:47-58 | from any state outside an application, the example's eight messages, from "I want to apply" to the rate, end the application with the table's 6.5% rate, score 700, loan 240,000 and a 30-year term |

## Left out

- The language model, the retriever and the vector store are outside the
  model.
  - Their answers for a turn are the parameter `Workflow.Replies`.
  - Only the post-processing of those replies is modelled: strip and compare,
    the cleaning in `extract_number`, and the down-payment tags.
  - The prompts, and the choice of prompt in `answer_question`, are left out.
- The rate table is a parameter. Reading `rate_matrix.csv` is file I/O and is
  left out, including the `FileNotFoundError` and the warning printed for a
  skipped row. Loading is modelled on rows already split into cells
  (`LoadMatrix`).
- The tool builds a new calculator on each call. This is left out: the table is
  passed in (`DeployedTool`).
- `retriever.py`, `load_data.py` and the Streamlit front end (`app.py`) are left
  out, except for what `Scenarios.Converse` takes from `app.py`: each message
  becomes `user_input`, and the next turn starts from the state the last one
  returned. The front end's reset of an `ended` step back to none and `qa`,
  which happens after the turn, is left out. Inside the graph, `ended` routes
  to topic validation like no step at all.
- The fields `messages` and `intent` are left out of the state; no node reads
  or writes them.
- Python floats are modelled as exact reals.
  - The ratios are computed exactly.
  - `int(x)` is truncation toward zero.
  - The `.1f`/`.3f` formats round the exact value half to even.
  - IEEE rounding of the binary value is left out.
- `float()` is modelled for an optional sign, digits with an optional dot, and
  an optional exponent. It skips surrounding whitespace. Left out:
  - `inf` and `nan`;
  - underscores between digits;
  - non-ASCII digits.

  `int()` is modelled for an optional sign and ASCII digits, with the same
  whitespace rule. `extract_number` keeps only `isdigit()` characters, which are
  modelled as the ASCII digits.
- `lower()` and `upper()` map ASCII letters only. Every text they are compared
  with is ASCII.
- `calculate_rate` finds the rate with the pattern `(\d+\.\d+)%`. This is
  modelled as its result: the unsigned three-decimal value of a reported rate
  (`ScrapedRate`, `Magnitude3`). The other three sentences hold no such number.
- The tool's error for a failed field is Python's `ValueError` text. Its `repr`
  of the field is modelled without escaping quotes or control characters.
- RateCalculator.LoadMatrix assumes every data row has a cell for each header
  column. A row the model lacks a column for is skipped, which matches the
  source only for a column the header lacks (`KeyError`). A data row shorter
  than the header gets `None` cells from `csv.DictReader`. `int(None)` then
  raises a `TypeError` that `_load_matrix` does not catch, so every tool call
  answers with an "Error calculating rate" text.
- Extraction.DownPaymentAmount leaves out float overflow. For `AMOUNT:1e400`,
  `float` gives `inf` and `int(inf)` raises `OverflowError`. The bare `except`
  turns that into a re-prompt. The model instead returns the exact value and
  moves on to the income step.
- Extraction.ExtractNumber leaves out the same overflow. A cleaned reply of more
  than 309 digits reads as `inf` in Python. The model reads its exact value.
- Extraction.PercentTruncates is about the exact share, and IEEE rounding can
  change the truncated result by a whole unit. For `PERCENT:29` on a 100,000
  home, Python computes `int(0.29*100000)` = `int(28999.999999999996)`, which is
  28,999. The model gives 29,000. This affects both `Extraction.DownPaymentAmount`
  and the stored down payment and loan amount.
- Nodes.ProcessDownPayment, Nodes.ProcessLoanTerm and Nodes.CalculateRate
  require what the source would otherwise fail on outside a `try`:
  - a known home value before a down payment is subtracted;
  - non-zero home value and income before the ratios.

  `Workflow.TurnDefined` collects these for a turn, and
  `StateMachine.ConsistentDefined` shows the slot invariant provides them
  whenever both figures are non-zero.
- StateMachine.TurnConsistent requires that the chosen term be 15 or 30. This
  holds for every reading that `Read` produces (`ReadTermReadable`).
- Replies are kept as a structured `Reply`. `ReplyText` renders them with the
  source's sentences and f-string layout.
- An `application_step` string outside the nine known values cannot occur: no
  node writes one. The step is an enumeration.
- A turn always runs on the state as the previous turn left it. `Read` reads
  every reply against the turn's starting state. This is exact:
  - no node writes `user_input`, so the five nodes of a question turn that read
    it all see the turn's utterance;
  - the only slot a reading depends on is `home_value`, for
    `process_down_payment`, which runs straight after the pass-through
    `check_app_step`;
  - the relevance verdict and the answer, which the source requests with the
    `context` that `retrieve_documents` stored earlier in the turn, are free
    replies.
- `process_down_payment` truncates the percentage share with `int(...)`; it is
  not rounded (`PercentTruncates`).
