/** The rate matrix: an ordered table of pricing rules and its first-match lookup. */
module RateCalculator {
  import opened Wrappers
  import opened Text
  import opened Numbers

  /**
   * One row of the rate matrix: a rule offers `rate` to applicants whose score
   * is at least `minCredit`, whose LTV and DTI are at most `maxLtv` and
   * `maxDti` (both percentages) and who ask for exactly `loanTerm` years.
   */
  datatype RateRule = RateRule(minCredit: int, maxLtv: real, maxDti: real, loanTerm: int, rate: real)

  /** The four figures a lookup is made with. */
  datatype Query = Query(creditScore: int, ltv: real, dti: real, loanTerm: int)

  /** All four conditions of a rule hold; the three bounds are inclusive, the term is exact. */
  predicate Matches(rule: RateRule, q: Query) {
    q.creditScore >= rule.minCredit
    && q.ltv <= rule.maxLtv
    && q.dti <= rule.maxDti
    && q.loanTerm == rule.loanTerm
  }

  /** Rule `i` matches and every rule before it fails at least one condition. */
  predicate IsFirstMatch(table: seq<RateRule>, q: Query, i: int) {
    0 <= i < |table| && Matches(table[i], q)
    && forall j | 0 <= j < i :: !Matches(table[j], q)
  }

  /** Some rule of the table matches. */
  predicate AnyMatch(table: seq<RateRule>, q: Query) {
    exists i | 0 <= i < |table| :: Matches(table[i], q)
  }

  /**
   * `RateCalculator.calculate`: the rate of the first matching rule, or
   * `None` when there is none (in particular for an empty table).
   */
  function Calculate(table: seq<RateRule>, q: Query): (r: Option<real>)
    ensures r.None? <==> !AnyMatch(table, q)
    ensures r.Some? ==> exists i | 0 <= i < |table| :: IsFirstMatch(table, q, i) && r.value == table[i].rate
  {
    if |table| == 0 then None
    else if Matches(table[0], q) then
      assert IsFirstMatch(table, q, 0);
      Some(table[0].rate)
    else
      var r := Calculate(table[1..], q);
      if r.Some? then
        var i :| 0 <= i < |table[1..]| && IsFirstMatch(table[1..], q, i) && r.value == table[1..][i].rate;
        assert IsFirstMatch(table, q, i + 1);
        r
      else
        assert forall i | 1 <= i < |table| :: table[i] == table[1..][i - 1];
        r
  }

  /** The lookup loop as written: scan the rules in order and return at the first match. */
  method Scan(table: seq<RateRule>, q: Query) returns (rate: Option<real>)
    ensures rate.None? <==> !AnyMatch(table, q)
    ensures rate.Some? ==> exists i | 0 <= i < |table| :: IsFirstMatch(table, q, i) && rate.value == table[i].rate
  {
    if |table| == 0 {
      return None;
    }
    var k := 0;
    while k < |table|
      invariant 0 <= k <= |table|
      invariant forall j | 0 <= j < k :: !Matches(table[j], q)
    {
      if Matches(table[k], q) {
        assert IsFirstMatch(table, q, k);
        return Some(table[k].rate);
      }
      k := k + 1;
    }
    return None;
  }

  /** There is only one first match, so the loop and the recursive definition agree. */
  lemma FirstMatchUnique(table: seq<RateRule>, q: Query, i: int, j: int)
    requires IsFirstMatch(table, q, i) && IsFirstMatch(table, q, j)
    ensures i == j
  {
  }

  /** The lookup returns the rate of rule `i` exactly when `i` is the first match. */
  lemma CalculateFirstMatch(table: seq<RateRule>, q: Query, i: int)
    requires IsFirstMatch(table, q, i)
    ensures Calculate(table, q) == Some(table[i].rate)
  {
    var r := Calculate(table, q);
    assert AnyMatch(table, q);
    var k :| 0 <= k < |table| && IsFirstMatch(table, q, k) && r.value == table[k].rate;
    FirstMatchUnique(table, q, i, k);
  }

  /** Looking up in a concatenation: the front table decides when it has a match. */
  lemma {:induction false} CalculateAppend(a: seq<RateRule>, b: seq<RateRule>, q: Query)
    ensures Calculate(a + b, q) == if AnyMatch(a, q) then Calculate(a, q) else Calculate(b, q)
  {
    if |a| == 0 {
      assert a + b == b;
    } else {
      assert (a + b)[1..] == a[1..] + b;
      CalculateAppend(a[1..], b, q);
      if !Matches(a[0], q) {
        assert AnyMatch(a, q) ==> AnyMatch(a[1..], q) by {
          if AnyMatch(a, q) {
            var i :| 0 <= i < |a| && Matches(a[i], q);
            assert a[1..][i - 1] == a[i];
          }
        }
      }
    }
  }

  /** A rule that matches nothing of interest can be dropped without changing any answer. */
  lemma NonMatchingRuleIrrelevant(a: seq<RateRule>, rule: RateRule, b: seq<RateRule>, q: Query)
    requires !Matches(rule, q)
    ensures Calculate(a + [rule] + b, q) == Calculate(a + b, q)
  {
    CalculateAppend(a, [rule] + b, q);
    CalculateAppend(a, b, q);
    assert a + [rule] + b == a + ([rule] + b);
    assert ([rule] + b)[1..] == b;
  }

  /** An applicant who sits exactly on a rule's bounds is offered that rule's rate when it comes first. */
  lemma BoundsInclusive(rule: RateRule, rest: seq<RateRule>)
    ensures Calculate([rule] + rest, Query(rule.minCredit, rule.maxLtv, rule.maxDti, rule.loanTerm)) == Some(rule.rate)
  {
    CalculateFirstMatch([rule] + rest, Query(rule.minCredit, rule.maxLtv, rule.maxDti, rule.loanTerm), 0);
  }

  /** The term is matched exactly: a term no rule offers finds no rate, whatever the other figures. */
  lemma TermExact(table: seq<RateRule>, q: Query)
    requires forall i | 0 <= i < |table| :: table[i].loanTerm != q.loanTerm
    ensures Calculate(table, q) == None
  {
  }

  /**
   * Monotonicity: if some rule offers a rate for `q`, then an applicant with a
   * score at least as high and an LTV and DTI no higher, asking for the same
   * term, is offered a rate too.
   */
  lemma Monotone(table: seq<RateRule>, q: Query, better: Query)
    requires Calculate(table, q).Some?
    requires better.creditScore >= q.creditScore && better.ltv <= q.ltv && better.dti <= q.dti
    requires better.loanTerm == q.loanTerm
    ensures Calculate(table, better).Some?
  {
    var i :| 0 <= i < |table| && Matches(table[i], q);
    assert Matches(table[i], better);
  }

  /** A CSV row as `csv.DictReader` produces it: column name to cell text. */
  type CsvRow = map<string, string>

  /** Reads one cell with `int()`; a column the file's header lacks is the source's `KeyError`. */
  function IntCell(row: CsvRow, column: string): (r: Option<int>)
    ensures r.Some? ==> column in row && ParseInt(row[column]) == r
  {
    if column in row then ParseInt(row[column]) else None
  }

  /** Reads one cell with `float()`. */
  function RealCell(row: CsvRow, column: string): (r: Option<real>)
    ensures r.Some? ==> column in row && ParseFloat(row[column]) == r
  {
    if column in row then ParseFloat(row[column]) else None
  }

  /** One row of the matrix file, or `None` when a column is missing or does not parse. */
  function ParseRow(row: CsvRow): (r: Option<RateRule>)
    ensures r.Some? ==> "min_credit" in row && "max_ltv" in row && "max_dti" in row
                        && "loan_term" in row && "rate" in row
  {
    match (IntCell(row, "min_credit"), RealCell(row, "max_ltv"), RealCell(row, "max_dti"),
           IntCell(row, "loan_term"), RealCell(row, "rate"))
    case (Some(c), Some(l), Some(d), Some(t), Some(p)) => Some(RateRule(c, l, d, t, p))
    case _ => None
  }

  /** The values of the elements `parse` accepts, in their original order. */
  function KeepParsed<T, U>(xs: seq<T>, parse: T -> Option<U>): (ys: seq<U>)
    ensures |ys| <= |xs|
    ensures forall k | 0 <= k < |ys| :: exists i | 0 <= i < |xs| :: parse(xs[i]) == Some(ys[k])
  {
    if |xs| == 0 then []
    else
      var rest := KeepParsed(xs[1..], parse);
      assert forall k | 0 <= k < |rest| :: exists i | 1 <= i < |xs| :: parse(xs[i]) == Some(rest[k]) by {
        forall k | 0 <= k < |rest|
          ensures exists i | 1 <= i < |xs| :: parse(xs[i]) == Some(rest[k])
        {
          var i :| 0 <= i < |xs[1..]| && parse(xs[1..][i]) == Some(rest[k]);
          assert xs[i + 1] == xs[1..][i];
        }
      }
      match parse(xs[0])
      case Some(y) => [y] + rest
      case None => rest
  }

  lemma {:induction false} KeepParsedAppend<T, U>(a: seq<T>, b: seq<T>, parse: T -> Option<U>)
    ensures KeepParsed(a + b, parse) == KeepParsed(a, parse) + KeepParsed(b, parse)
  {
    if |a| == 0 {
      assert a + b == b;
    } else {
      assert (a + b)[1..] == a[1..] + b;
      KeepParsedAppend(a[1..], b, parse);
    }
  }

  lemma {:induction false} KeepParsedAll<T, U>(xs: seq<T>, parse: T -> Option<U>)
    requires forall i | 0 <= i < |xs| :: parse(xs[i]).Some?
    ensures |KeepParsed(xs, parse)| == |xs|
    ensures forall i | 0 <= i < |xs| :: Some(KeepParsed(xs, parse)[i]) == parse(xs[i])
  {
    if |xs| > 0 {
      KeepParsedAll(xs[1..], parse);
      var rest := KeepParsed(xs[1..], parse);
      assert KeepParsed(xs, parse) == [parse(xs[0]).value] + rest;
      assert forall i | 1 <= i < |xs| :: xs[i] == xs[1..][i - 1];
    }
  }

  /** `_load_matrix` after the file is read: the rows that parse, in file order. */
  function LoadMatrix(rows: seq<CsvRow>): (table: seq<RateRule>)
    ensures |table| <= |rows|
    ensures forall k | 0 <= k < |table| :: exists i | 0 <= i < |rows| :: ParseRow(rows[i]) == Some(table[k])
  {
    KeepParsed(rows, ParseRow)
  }

  /** Loading a file in two halves loads each half and concatenates: the order is kept. */
  lemma LoadAppend(a: seq<CsvRow>, b: seq<CsvRow>)
    ensures LoadMatrix(a + b) == LoadMatrix(a) + LoadMatrix(b)
  {
    KeepParsedAppend(a, b, ParseRow);
  }

  /** A single row is kept exactly when it parses. */
  lemma LoadSingle(row: CsvRow)
    ensures LoadMatrix([row]) == match ParseRow(row) case Some(rule) => [rule] case None => []
  {
  }

  /** When every row parses, nothing is dropped and row `i` becomes rule `i`. */
  lemma LoadAllValid(rows: seq<CsvRow>)
    requires forall i | 0 <= i < |rows| :: ParseRow(rows[i]).Some?
    ensures |LoadMatrix(rows)| == |rows|
    ensures forall i | 0 <= i < |rows| :: Some(LoadMatrix(rows)[i]) == ParseRow(rows[i])
  {
    KeepParsedAll(rows, ParseRow);
  }

  /** A row whose five cells all parse becomes the rule built from them, in column order. */
  lemma ParseRowOf(row: CsvRow, c: int, l: real, d: real, t: int, p: real)
    requires IntCell(row, "min_credit") == Some(c) && RealCell(row, "max_ltv") == Some(l)
    requires RealCell(row, "max_dti") == Some(d) && IntCell(row, "loan_term") == Some(t)
    requires RealCell(row, "rate") == Some(p)
    ensures ParseRow(row) == Some(RateRule(c, l, d, t, p))
  {
  }

  /** A row holding the given cell texts under the five column names of the matrix file. */
  function RowOf(minCredit: string, maxLtv: string, maxDti: string, loanTerm: string, rate: string): CsvRow {
    map["min_credit" := minCredit, "max_ltv" := maxLtv, "max_dti" := maxDti,
        "loan_term" := loanTerm, "rate" := rate]
  }

  /** The cells of `RowOf` sit under their column names. */
  lemma RowOfCells(minCredit: string, maxLtv: string, maxDti: string, loanTerm: string, rate: string)
    ensures var row := RowOf(minCredit, maxLtv, maxDti, loanTerm, rate);
      && "min_credit" in row && row["min_credit"] == minCredit
      && "max_ltv" in row && row["max_ltv"] == maxLtv
      && "max_dti" in row && row["max_dti"] == maxDti
      && "loan_term" in row && row["loan_term"] == loanTerm
      && "rate" in row && row["rate"] == rate
  {
  }

  /** The matrix file's cells for a rule with whole-number bounds and a rate in thousandths. */
  function RuleRow(minCredit: int, maxLtv: nat, maxDti: nat, loanTerm: int, rateThousandths: nat): CsvRow {
    RowOf(IntToString(minCredit), NatToString(maxLtv), NatToString(maxDti), IntToString(loanTerm),
          ThousandthsText(rateThousandths))
  }

  /** A row written the way the matrix file writes its cells parses back to the rule. */
  lemma RuleRowRoundTrip(minCredit: int, maxLtv: nat, maxDti: nat, loanTerm: int, rateThousandths: nat)
    ensures ParseRow(RuleRow(minCredit, maxLtv, maxDti, loanTerm, rateThousandths))
         == Some(RateRule(minCredit, maxLtv as real, maxDti as real, loanTerm, FromThousandths(rateThousandths)))
  {
    var c, l, d, t, p := IntToString(minCredit), NatToString(maxLtv), NatToString(maxDti),
                         IntToString(loanTerm), ThousandthsText(rateThousandths);
    var row := RowOf(c, l, d, t, p);
    RowOfCells(c, l, d, t, p);
    IntRoundTrip(minCredit);
    IntRoundTrip(loanTerm);
    FloatOfNatString(maxLtv);
    FloatOfNatString(maxDti);
    ThousandthsTextValue(rateThousandths);
    ParseFloatPositive(p, FromThousandths(rateThousandths));
    ParseRowOf(row, minCredit, maxLtv as real, maxDti as real, loanTerm, FromThousandths(rateThousandths));
  }
}
