/**
 * The post-processing the workflow applies to the language model's replies
 * when it asks for a number: `extract_number`'s cleaning and parsing, and the
 * `AMOUNT:`/`PERCENT:` tags of the down-payment reply. The reply itself is an input.
 */
module Extraction {
  import opened Wrappers
  import opened Text
  import opened Numbers

  /** The characters the cleaning keeps: ASCII digits and the decimal point. */
  predicate Kept(c: char) {
    IsDigit(c) || c == '.'
  }

  predicate AllKept(s: string) {
    forall i | 0 <= i < |s| :: Kept(s[i])
  }

  /** `''.join(c for c in response if c.isdigit() or c == '.')`. */
  function Clean(s: string): (r: string)
    ensures AllKept(r) && |r| <= |s|
  {
    if |s| == 0 then ""
    else (if Kept(s[0]) then [s[0]] else []) + Clean(s[1..])
  }

  /** Cleaning works character by character: the cleaning of a concatenation is the concatenation of the cleanings. */
  lemma {:induction false} CleanAppend(a: string, b: string)
    ensures Clean(a + b) == Clean(a) + Clean(b)
  {
    if |a| == 0 {
      assert a + b == b;
    } else {
      assert (a + b)[1..] == a[1..] + b;
      CleanAppend(a[1..], b);
    }
  }

  /** A text of digits and points is left as it is, so cleaning twice is cleaning once. */
  lemma {:induction false} CleanKeeps(s: string)
    requires AllKept(s)
    ensures Clean(s) == s
  {
    if |s| > 0 {
      CleanKeeps(s[1..]);
    }
  }

  /** Any other character is dropped wherever it stands. */
  lemma CleanDrops(a: string, c: char, b: string)
    requires !Kept(c)
    ensures Clean(a + [c] + b) == Clean(a + b)
  {
    CleanAppend(a + [c], b);
    CleanAppend(a, [c]);
    CleanAppend(a, b);
    assert Clean([c]) == [];
  }

  const Sentinel: string := "NONE"

  /**
   * `extract_number` after the model has replied: the stripped reply is `None`
   * when it is the sentinel in any letter case; otherwise only its digits and
   * points are kept, and they must read as a float. A number it returns is never
   * negative, and it fails exactly when the cleaned text is empty, has two
   * points or has no digit.
   */
  function ExtractNumber(reply: string): (r: Option<real>)
    ensures Upper(Strip(reply)) == Sentinel ==> r.None?
    ensures r.Some? ==> r.value >= 0.0
    ensures Upper(Strip(reply)) != Sentinel ==>
      (r.Some? <==> Count(Clean(Strip(reply)), '.') <= 1 && HasDigit(Clean(Strip(reply))))
  {
    var response := Strip(reply);
    if Upper(response) == Sentinel then None else ReadCleaned(Clean(response))
  }

  /** The float the cleaned digits and points spell, if any. */
  function ReadCleaned(cleaned: string): (r: Option<real>)
    requires AllKept(cleaned)
    ensures r.Some? ==> r.value >= 0.0
    ensures r.Some? <==> Count(cleaned, '.') <= 1 && HasDigit(cleaned)
    ensures Count(cleaned, '.') == 0 && |cleaned| > 0 ==> IsDigits(cleaned) && r == Some(DigitsValue(cleaned) as real)
  {
    DigitsAndDotsParse(cleaned);
    DigitsAndDotsValue(cleaned);
    if |cleaned| == 0 then None else ParseFloat(cleaned)
  }

  /** A reply made of digits only is read as the number they spell. */
  lemma ExtractDigits(reply: string)
    requires |reply| > 0 && IsDigits(reply)
    ensures ExtractNumber(reply) == Some(DigitsValue(reply) as real)
  {
    DigitsAreNoSentinel(reply);
    DigitsCleanRead(reply);
  }

  /** A digit string survives the cleaning and reads as its value. */
  lemma DigitsCleanRead(s: string)
    requires |s| > 0 && IsDigits(s)
    ensures AllKept(s) && Clean(s) == s && ReadCleaned(s) == Some(DigitsValue(s) as real)
  {
    CleanKeeps(s);
    CountZero(s, '.');
  }

  /** A digit string is its own strip and is not the sentinel. */
  lemma DigitsAreNoSentinel(reply: string)
    requires |reply| > 0 && IsDigits(reply)
    ensures Strip(reply) == reply && Upper(reply) != Sentinel
  {
    assert !IsSpace(reply[0]) && !IsSpace(reply[|reply| - 1]);
    StripUnchanged(reply);
    assert Upper(reply)[0] == reply[0];
  }

  /**
   * A reply `w.f` of digits around one point is read as its decimal value:
   * the digits of `w` and `f` scaled down by one power of ten per fraction digit.
   */
  lemma ExtractPoint(w: string, f: string)
    requires IsDigits(w) && IsDigits(f) && |w| + |f| > 0
    ensures ExtractNumber(w + "." + f) == Some(Scale(DigitsValue(w + f), -|f|))
  {
    PointCleanRead(w, f);
    PointIsNoSentinel(w, f);
  }

  /** `w.f` survives the cleaning and reads as its value. */
  lemma PointCleanRead(w: string, f: string)
    requires IsDigits(w) && IsDigits(f) && |w| + |f| > 0
    ensures AllKept(w + "." + f) && Clean(w + "." + f) == w + "." + f
    ensures ReadCleaned(w + "." + f) == Some(Scale(DigitsValue(w + f), -|f|))
  {
    var s := w + "." + f;
    assert AllKept(s) by {
      forall i | 0 <= i < |s| ensures Kept(s[i]) {
        if i < |w| { assert s[i] == w[i]; }
        else if i > |w| { assert s[i] == f[i - |w| - 1]; }
      }
    }
    CleanKeeps(s);
    PointValue(w, f);
  }

  /** `w.f` is its own strip and is not the sentinel. */
  lemma PointIsNoSentinel(w: string, f: string)
    requires IsDigits(w) && IsDigits(f)
    ensures Strip(w + "." + f) == w + "." + f && Upper(w + "." + f) != Sentinel
  {
    var s := w + "." + f;
    PointEdges(w, f);
    StripUnchanged(s);
    assert Upper(s)[|w|] == '.';
    SentinelHasNoPoint();
    if |s| == |Sentinel| {
      assert Sentinel[|w|] != '.';
    }
  }

  lemma SentinelHasNoPoint()
    ensures forall i | 0 <= i < |Sentinel| :: Sentinel[i] != '.'
  {
  }

  /** The model's reply `str(n)` for a natural number is read as `n`. */
  lemma ExtractNat(n: nat)
    ensures ExtractNumber(NatToString(n)) == Some(n as real)
  {
    ExtractDigits(NatToString(n));
    NatToStringValue(n);
  }

  /** The text after a tag and its colon, up to the next colon: `response.split(":")[1]`. */
  function TagField(response: string): (r: string)
    requires Count(response, ':') >= 1
  {
    SplitCount(response, ':');
    Split(response, ':')[1]
  }

  /** A response starting with a colon-free tag and a colon holds a colon. */
  lemma TaggedHasColon(response: string, tag: string)
    requires StartsWith(response, tag + ":")
    ensures Count(response, ':') >= 1
  {
    var n := |tag| + 1;
    assert response == response[..n] + response[n..];
    CountAppend(response[..n], response[n..], ':');
    CountAppend(tag, ":", ':');
  }

  /** The field after `tag:` is the text that follows the tag up to the next colon. */
  lemma TagFieldAfter(tag: string, rest: string)
    requires Count(tag, ':') == 0
    ensures Count(tag + ":" + rest, ':') >= 1
    ensures TagField(tag + ":" + rest) == Split(rest, ':')[0]
  {
    assert tag + ":" + rest == tag + [':'] + rest;
    SplitPrefix(tag, rest, ':');
    CountAppend(tag + ":", rest, ':');
    CountAppend(tag, ":", ':');
  }

  /** `(percentage / 100) * home_value`. */
  function PercentOf(p: real, h: int): real {
    p / 100.0 * h as real
  }

  const AmountTag: string := "AMOUNT:"
  const PercentTag: string := "PERCENT:"

  /**
   * The down payment read from the model's tagged reply: `AMOUNT:x` gives
   * `int(float(x))`, `PERCENT:p` gives `int(p / 100 * home_value)`, and anything
   * else, a field that does not parse, or a missing home value (the source's caught
   * exception) gives `None`.
   */
  function DownPaymentAmount(reply: string, homeValue: Option<int>): (r: Option<int>)
    ensures r.Some? ==> StartsWith(Strip(reply), AmountTag)
                        || (StartsWith(Strip(reply), PercentTag) && homeValue.Some?)
  {
    var response := Strip(reply);
    if StartsWith(response, AmountTag) then
      TaggedHasColon(response, "AMOUNT");
      match ParseFloat(TagField(response))
      case Some(x) => Some(Trunc(x))
      case None => None
    else if StartsWith(response, PercentTag) then
      TaggedHasColon(response, "PERCENT");
      match (ParseFloat(TagField(response)), homeValue)
      case (Some(p), Some(h)) => Some(Trunc(PercentOf(p, h)))
      case _ => None
    else None
  }

  /** The tags are colon-free. */
  lemma TagsColonFree()
    ensures Count("AMOUNT", ':') == 0 && Count("PERCENT", ':') == 0
  {
  }

  /** A reply without either tag gives no down payment, whatever the home value. */
  lemma UntaggedFails(reply: string, homeValue: Option<int>)
    requires !StartsWith(Strip(reply), AmountTag) && !StartsWith(Strip(reply), PercentTag)
    ensures DownPaymentAmount(reply, homeValue) == None
  {
  }

  /** `AMOUNT:` followed by a colon-free field gives the field's value truncated toward zero. */
  lemma AmountReply(field: string, homeValue: Option<int>)
    requires Count(field, ':') == 0
    requires var r := AmountTag + field; |r| > 0 && !IsSpace(r[|r| - 1])
    ensures DownPaymentAmount(AmountTag + field, homeValue) ==
      match ParseFloat(field) case Some(x) => Some(Trunc(x)) case None => None
  {
    var response := AmountTag + field;
    assert !IsSpace(response[0]);
    StripUnchanged(response);
    assert response == "AMOUNT" + ":" + field;
    TagsColonFree();
    TagFieldAfter("AMOUNT", field);
    SplitFree(field, ':');
    assert StartsWith(response, AmountTag);
  }

  /**
   * `PERCENT:` followed by a colon-free field gives the percentage of the home value,
   * truncated toward zero (not rounded), or nothing when there is no home value.
   */
  lemma PercentReply(field: string, homeValue: Option<int>)
    requires Count(field, ':') == 0
    requires var r := PercentTag + field; |r| > 0 && !IsSpace(r[|r| - 1])
    ensures DownPaymentAmount(PercentTag + field, homeValue) ==
      match (ParseFloat(field), homeValue)
      case (Some(p), Some(h)) => Some(Trunc(PercentOf(p, h)))
      case _ => None
  {
    var response := PercentTag + field;
    assert !IsSpace(response[0]);
    StripUnchanged(response);
    assert response == "PERCENT" + ":" + field;
    TagsColonFree();
    TagFieldAfter("PERCENT", field);
    SplitFree(field, ':');
    assert !StartsWith(response, AmountTag) by {
      assert response[0] != AmountTag[0];
    }
  }

  /**
   * A `PERCENT:` reply gives a down payment exactly when its percentage parses,
   * and for a non-negative percentage of a non-negative home value that payment
   * is the exact share truncated: never above it and less than one below it.
   */
  lemma PercentTruncates(field: string, h: int)
    requires Count(field, ':') == 0
    requires var r := PercentTag + field; |r| > 0 && !IsSpace(r[|r| - 1])
    requires h >= 0
    ensures var d := DownPaymentAmount(PercentTag + field, Some(h));
      var p := ParseFloat(field);
      && (d.Some? <==> p.Some?)
      && (p.Some? && p.value >= 0.0 ==>
            0 <= d.value && d.value as real <= PercentOf(p.value, h) < d.value as real + 1.0)
  {
    PercentReply(field, Some(h));
    var p := ParseFloat(field);
    if p.Some? && p.value >= 0.0 {
      ShareTruncated(p.value, h);
    }
  }

  /** The truncated share of a non-negative percentage of a non-negative amount. */
  lemma ShareTruncated(p: real, h: int)
    requires p >= 0.0 && h >= 0
    ensures var d := Trunc(PercentOf(p, h));
      0 <= d && d as real <= PercentOf(p, h) < d as real + 1.0
  {
    assert PercentOf(p, h) >= 0.0;
  }
}
