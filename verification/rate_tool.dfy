/**
 * The text boundary of the rate lookup: the `CalculateMortgageRate` tool takes
 * `credit_score,ltv,dti,loan_term` as one string and answers with a sentence.
 * The tool's decision is modelled as an `Answer`; the sentence is its rendering.
 */
module RateTool {
  import opened Wrappers
  import opened Text
  import opened Numbers
  import opened RateCalculator

  const InvalidFormat: string := "Error: Invalid input format. Expected: credit_score,ltv,dti,loan_term"
  const NotFound: string :=
    "Unfortunately, no matching rate was found for the provided criteria. The LTV or DTI may be outside our lending guidelines."
  /** What every caught exception is reported with. */
  const ErrorPrefix: string := "Error calculating rate: "
  const RatePrefix: string := "The estimated interest rate is "

  /** What the tool decided: a malformed input, a field that did not parse, a rate, or no rate. */
  datatype Answer = BadFormat | FieldError(message: string) | Found(rate: real) | NoneFound

  /** Python's `repr` of a string, without the escaping of quotes and control characters. */
  function Quote(s: string): (r: string)
    ensures |r| == |s| + 2 && r[|r| - 1] == '\''
  {
    "'" + s + "'"
  }

  /** The text of the `ValueError` that `int(s)` raises. */
  function IntError(s: string): string {
    "invalid literal for int() with base 10: " + Quote(s)
  }

  /** The text of the `ValueError` that `float(s)` raises. */
  function FloatError(s: string): string {
    "could not convert string to float: " + Quote(s)
  }

  /** `int(s)`, failing with the text of Python's `ValueError`. */
  function IntField(s: string): (r: Result<int, string>)
    ensures r.Success? <==> ParseInt(s).Some?
    ensures r.Success? ==> ParseInt(s) == Some(r.value)
    ensures r.Failure? ==> r.error == IntError(s)
  {
    match ParseInt(s)
    case Some(i) => Success(i)
    case None => Failure(IntError(s))
  }

  /** `float(s)`, failing with the text of Python's `ValueError`. */
  function RealField(s: string): (r: Result<real, string>)
    ensures r.Success? <==> ParseFloat(s).Some?
    ensures r.Success? ==> ParseFloat(s) == Some(r.value)
    ensures r.Failure? ==> r.error == FloatError(s)
  {
    match ParseFloat(s)
    case Some(x) => Success(x)
    case None => Failure(FloatError(s))
  }

  /** The four fields read in the order score, LTV, DTI, term; the first one that fails is reported. */
  function ParseFields(parts: seq<string>): Result<Query, string>
    requires |parts| == 4
  {
    match IntField(parts[0])
    case Failure(e) => Failure(e)
    case Success(score) =>
      match RealField(parts[1])
      case Failure(e) => Failure(e)
      case Success(ltv) =>
        match RealField(parts[2])
        case Failure(e) => Failure(e)
        case Success(dti) =>
          match IntField(parts[3])
          case Failure(e) => Failure(e)
          case Success(term) => Success(Query(score, ltv, dti, term))
  }

  /** The four fields parse exactly when each one parses, and then they form the query in field order. */
  lemma ParseFieldsOrder(parts: seq<string>)
    requires |parts| == 4
    ensures ParseFields(parts).Success? <==>
      ParseInt(parts[0]).Some? && ParseFloat(parts[1]).Some? && ParseFloat(parts[2]).Some? && ParseInt(parts[3]).Some?
    ensures ParseFields(parts).Success? ==>
      ParseFields(parts).value ==
        Query(ParseInt(parts[0]).value, ParseFloat(parts[1]).value, ParseFloat(parts[2]).value, ParseInt(parts[3]).value)
  {
  }

  /** The choice made by `if rate:`: a zero rate counts as no rate. */
  function RateAnswer(rate: Option<real>): (a: Answer)
    ensures a.NoneFound? <==> rate.None? || rate.value == 0.0
    ensures a.Found? ==> rate == Some(a.rate) && a.rate != 0.0
    ensures a.Found? || a.NoneFound?
  {
    if rate.Some? && rate.value != 0.0 then Found(rate.value) else NoneFound
  }

  /** What `calculate_mortgage_rate` decides, with the rate table as a parameter. */
  function Decide(input: string, table: seq<RateRule>): Answer {
    var parts := Split(Strip(input), ',');
    if |parts| != 4 then BadFormat
    else
      match ParseFields(parts)
      case Failure(e) => FieldError(e)
      case Success(q) => RateAnswer(Calculate(table, q))
  }

  /** The sentence the tool returns for an answer. */
  function Render(a: Answer): (out: string)
    ensures |out| > 0
  {
    match a
    case BadFormat => InvalidFormat
    case FieldError(e) => ErrorPrefix + e
    case Found(rate) => RatePrefix + Fixed3(rate) + "%"
    case NoneFound => NotFound
  }

  /** `calculate_mortgage_rate`: it always answers with text and never raises. */
  function CalculateMortgageRate(input: string, table: seq<RateRule>): string {
    Render(Decide(input, table))
  }

  /** The last character of a rendered answer tells the four kinds apart. */
  function LastChar(a: Answer): char {
    match a
    case BadFormat => 'm'
    case FieldError(_) => '\''
    case Found(_) => '%'
    case NoneFound => '.'
  }

  /** A field error is always reported with a quoted field. */
  lemma FieldErrorShape(a: Answer)
    requires a.FieldError?
    requires exists s :: a.message == IntError(s) || a.message == FloatError(s)
    ensures Render(a)[|Render(a)| - 1] == '\''
  {
    var s :| a.message == IntError(s) || a.message == FloatError(s);
    var q := Quote(s);
    assert a.message[|a.message| - 1] == q[|q| - 1];
  }

  /** The answers of the tool are told apart by their text: rendering never confuses two kinds. */
  lemma RenderKinds(a: Answer)
    requires a.FieldError? ==> exists s :: a.message == IntError(s) || a.message == FloatError(s)
    ensures Render(a)[|Render(a)| - 1] == LastChar(a)
  {
    match a
    case BadFormat =>
    case FieldError(e) => FieldErrorShape(a);
    case Found(rate) =>
    case NoneFound =>
  }

  /** Every field error the tool produces is the text of a failed `int()` or `float()`. */
  lemma DecideErrorShape(input: string, table: seq<RateRule>)
    ensures var a := Decide(input, table);
      a.FieldError? ==> exists s :: a.message == IntError(s) || a.message == FloatError(s)
  {
    var parts := Split(Strip(input), ',');
    if |parts| == 4 {
      var a := Decide(input, table);
      if a.FieldError? {
        if IntField(parts[0]).Failure? {
          assert a.message == IntError(parts[0]);
        } else if RealField(parts[1]).Failure? {
          assert a.message == FloatError(parts[1]);
        } else if RealField(parts[2]).Failure? {
          assert a.message == FloatError(parts[2]);
        } else {
          assert a.message == IntError(parts[3]);
        }
      }
    }
  }

  /** The tool answers with the format error exactly when it decided the input was malformed. */
  lemma InvalidFormatText(input: string, table: seq<RateRule>)
    ensures CalculateMortgageRate(input, table) == InvalidFormat <==> Decide(input, table) == BadFormat
  {
    var a := Decide(input, table);
    DecideErrorShape(input, table);
    RenderKinds(a);
    assert InvalidFormat[|InvalidFormat| - 1] == 'm';
  }

  /** The tool answers with the guideline message exactly when it found no usable rate. */
  lemma NotFoundText(input: string, table: seq<RateRule>)
    ensures CalculateMortgageRate(input, table) == NotFound <==> Decide(input, table) == NoneFound
  {
    var a := Decide(input, table);
    DecideErrorShape(input, table);
    RenderKinds(a);
    assert NotFound[|NotFound| - 1] == '.';
  }

  /**
   * The input is malformed exactly when the stripped input does not hold
   * three commas, that is when it does not split into four fields; then no lookup happens.
   */
  lemma InvalidFormatIff(input: string, table: seq<RateRule>)
    ensures Decide(input, table) == BadFormat <==> Count(Strip(input), ',') != 3
  {
    SplitCount(Strip(input), ',');
  }

  /** A malformed input gets the same answer whatever the rate table: the table is not consulted. */
  lemma BadFormatIgnoresTable(input: string, table: seq<RateRule>, other: seq<RateRule>)
    requires Count(Strip(input), ',') != 3
    ensures CalculateMortgageRate(input, table) == CalculateMortgageRate(input, other) == InvalidFormat
  {
    SplitCount(Strip(input), ',');
  }

  /** A found, non-zero rate is reported with a number that reads back as the rate to three decimals. */
  lemma RateMessageReadsBack(rate: real)
    requires rate != 0.0
    ensures exists t :: Render(RateAnswer(Some(rate))) == RatePrefix + t + "%" && ParseFloat(t) == Some(Rounded3(rate))
  {
    Fixed3RoundTrip(rate);
    assert Render(RateAnswer(Some(rate))) == RatePrefix + Fixed3(rate) + "%";
  }

  /** Putting a comma-free field and a comma in front of a text puts the field in front of its parts. */
  lemma SplitCons(a: string, rest: string, parts: seq<string>)
    requires Count(a, ',') == 0 && Split(rest, ',') == parts
    ensures Split(a + "," + rest, ',') == [a] + parts
  {
    assert a + "," + rest == a + [','] + rest;
    SplitPrefix(a, rest, ',');
  }

  /** Two comma-free fields joined by a comma split back into those two fields. */
  lemma SplitTwo(c: string, d: string)
    requires Count(c, ',') == 0 && Count(d, ',') == 0
    ensures Split(c + "," + d, ',') == [c, d]
  {
    SplitFree(d, ',');
    SplitCons(c, d, [d]);
  }

  /** Three comma-free fields joined by commas split back into those three fields. */
  lemma SplitThree(b: string, c: string, d: string)
    requires Count(b, ',') == 0 && Count(c, ',') == 0 && Count(d, ',') == 0
    ensures Split(b + "," + c + "," + d, ',') == [b, c, d]
  {
    SplitTwo(c, d);
    SplitCons(b, c + "," + d, [c, d]);
    Regroup3(b, c, d);
  }

  /** Four comma-free fields joined by commas split back into those four fields. */
  lemma SplitFour(a: string, b: string, c: string, d: string)
    requires Count(a, ',') == 0 && Count(b, ',') == 0 && Count(c, ',') == 0 && Count(d, ',') == 0
    ensures Split(a + "," + b + "," + c + "," + d, ',') == [a, b, c, d]
  {
    SplitThree(b, c, d);
    SplitCons(a, b + "," + c + "," + d, [b, c, d]);
    Regroup4(a, b, c, d);
  }

  lemma Append3(x: string, y: string, z: string)
    ensures x + y + z == x + (y + z)
  {
  }

  /** Three fields joined by commas are the first, a comma and the other two joined. */
  lemma Regroup3(b: string, c: string, d: string)
    ensures b + "," + c + "," + d == b + "," + (c + "," + d)
  {
    Append3(b + ",", c, ",");
    Append3(b + ",", c + ",", d);
  }

  /** Four fields joined by commas are the first, a comma and the other three joined. */
  lemma Regroup4(a: string, b: string, c: string, d: string)
    ensures a + "," + b + "," + c + "," + d == a + "," + (b + "," + c + "," + d)
  {
    Append3(a + ",", b, ",");
    Append3(a + ",", b + ",", c);
    Append3(a + ",", b + "," + c, ",");
    Append3(a + ",", b + "," + c + ",", d);
  }

  /**
   * Four comma-free fields that form the query `q` (read in the order score,
   * LTV, DTI, term: see `FieldsOfQuery`) are answered with the lookup's result for `q`.
   */
  lemma ToolAnswersLookup(a: string, b: string, c: string, d: string, q: Query, table: seq<RateRule>)
    requires Count(a, ',') == 0 && Count(b, ',') == 0 && Count(c, ',') == 0 && Count(d, ',') == 0
    requires |a| > 0 && !IsSpace(a[0]) && |d| > 0 && !IsSpace(d[|d| - 1])
    requires ParseFields([a, b, c, d]) == Success(q)
    ensures Decide(a + "," + b + "," + c + "," + d, table) == RateAnswer(Calculate(table, q))
  {
    JoinedFields(a, b, c, d);
  }

  /** Four comma-free fields joined by commas, with no whitespace at the ends, are cut back into those fields. */
  lemma JoinedFields(a: string, b: string, c: string, d: string)
    requires Count(a, ',') == 0 && Count(b, ',') == 0 && Count(c, ',') == 0 && Count(d, ',') == 0
    requires |a| > 0 && !IsSpace(a[0]) && |d| > 0 && !IsSpace(d[|d| - 1])
    ensures Split(Strip(a + "," + b + "," + c + "," + d), ',') == [a, b, c, d]
  {
    JoinedEdges(a, b, c, d);
    SplitFour(a, b, c, d);
  }

  /** Four fields that read as the figures of `q`, in the order score, LTV, DTI, term, form `q`. */
  lemma FieldsOfQuery(a: string, b: string, c: string, d: string, q: Query)
    requires ParseInt(a) == Some(q.creditScore) && ParseFloat(b) == Some(q.ltv)
    requires ParseFloat(c) == Some(q.dti) && ParseInt(d) == Some(q.loanTerm)
    ensures ParseFields([a, b, c, d]) == Success(q)
  {
    var parts := [a, b, c, d];
    assert parts[0] == a && parts[1] == b && parts[2] == c && parts[3] == d;
    assert IntField(a) == Success(q.creditScore);
    assert RealField(b) == Success(q.ltv);
    assert RealField(c) == Success(q.dti);
    assert IntField(d) == Success(q.loanTerm);
  }

  /** Joined fields start with the first field's first character and end with the last field's last. */
  lemma JoinedEdges(a: string, b: string, c: string, d: string)
    requires |a| > 0 && !IsSpace(a[0]) && |d| > 0 && !IsSpace(d[|d| - 1])
    ensures Strip(a + "," + b + "," + c + "," + d) == a + "," + b + "," + c + "," + d
  {
    var input := a + "," + b + "," + c + "," + d;
    var front := a + "," + b + "," + c + ",";
    assert input == front + d;
    assert input[|input| - 1] == d[|d| - 1];
    assert input[0] == a[0];
    StripUnchanged(input);
  }

  /** A field that does not parse is reported, never raised; the first bad field in the order score, LTV, DTI, term wins. */
  lemma FieldErrorReported(input: string, table: seq<RateRule>)
    requires |Split(Strip(input), ',')| == 4
    ensures var parts := Split(Strip(input), ',');
      var a := Decide(input, table);
      && (ParseInt(parts[0]).None? ==> a == FieldError(IntError(parts[0])))
      && (ParseInt(parts[0]).Some? && ParseFloat(parts[1]).None? ==> a == FieldError(FloatError(parts[1])))
      && (ParseInt(parts[0]).Some? && ParseFloat(parts[1]).Some? && ParseFloat(parts[2]).None? ==>
            a == FieldError(FloatError(parts[2])))
      && ((ParseInt(parts[0]).Some? && ParseFloat(parts[1]).Some? && ParseFloat(parts[2]).Some?
            && ParseInt(parts[3]).None?) ==> a == FieldError(IntError(parts[3])))
  {
  }
}
