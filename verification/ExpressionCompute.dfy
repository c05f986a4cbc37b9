/** Evaluating a parsed aggregator expression for one host (modules/aggregator/cron/computer.go). */
module ExpressionCompute {
  import opened CounterValues
  import opened Options
  import opened Decimal
  import opened ExpressionText
  import opened ExpressionParse

  // ----- numbers -----

  function Pow10(n: nat): (r: nat)
    ensures r > 0
  {
    if n == 0 then 1 else 10 * Pow10(n - 1)
  }

  /** strconv.ParseFloat on digits and points: at most one point, at least one digit. */
  function ParseFloat(s: string): Option<real> {
    var j := DigitsEnd(s, 0);
    var fraction := if j == |s| then "" else s[j + 1..];
    if (j < |s| && s[j] != '.') || !AllDigits(fraction) || (j == 0 && fraction == "") then None
    else Some(NatOf(s[..j]) as real + NatOf(fraction) as real / Pow10(|fraction|) as real)
  }

  /** What a decimal means: all its digits as one number, scaled by the digits after the point. */
  function NumberValue(whole: string, fraction: string): real
    requires AllDigits(whole) && AllDigits(fraction)
  {
    NatOf(whole + fraction) as real / Pow10(|fraction|) as real
  }

  lemma {:induction false} NatOfConcat(a: string, b: string)
    requires AllDigits(a) && AllDigits(b)
    ensures NatOf(a + b) == NatOf(a) * Pow10(|b|) + NatOf(b)
  {
    if b == "" {
      assert a + b == a;
    } else {
      var front, d := b[..|b| - 1], ValueOf(b[|b| - 1]);
      NatOfConcat(a, front);
      assert (a + b)[..|a + b| - 1] == a + front;
      assert NatOf(a + b) == NatOf(a + front) * 10 + d;
      assert NatOf(a) * Pow10(|front|) * 10 == NatOf(a) * (10 * Pow10(|front|));
    }
  }

  lemma Scaled(a: int, p: nat, b: int)
    requires p > 0
    ensures (a * p + b) as real / p as real == a as real + b as real / p as real
  {
    assert (a * p) as real == a as real * p as real;
  }

  /** The digits of a printed number end where its whole part does. */
  lemma PrintedParts(whole: string, fraction: string)
    requires IsDigits(whole)
    ensures var s := PrintNumber(whole, fraction);
            && |whole| <= |s| && s[..|whole|] == whole && DigitsEnd(s, 0) == |whole|
            && (if fraction == "" then |whole| == |s|
                else |whole| < |s| && s[|whole|] == '.' && s[|whole| + 1..] == fraction)
  {
    var s := PrintNumber(whole, fraction);
    forall k | 0 <= k < |whole| ensures s[k] == whole[k] {
    }
    DigitsEndAt(s, 0, |whole|);
  }

  /** A printed number is parsed as what it means. */
  lemma ParseFloatBack(whole: string, fraction: string)
    requires IsDigits(whole) && AllDigits(fraction)
    ensures ParseFloat(PrintNumber(whole, fraction)) == Some(NumberValue(whole, fraction))
  {
    PrintedParts(whole, fraction);
    NatOfConcat(whole, fraction);
    Scaled(NatOf(whole), Pow10(|fraction|), NatOf(fraction));
  }

  // ----- comparing -----

  predicate IsNumberChar(c: char) {
    IsDigit(c) || c == '.'
  }

  /** The end of the longest stretch from `i` on that satisfies `p`. */
  function SpanEnd(s: string, i: nat, p: char -> bool): (j: nat)
    requires i <= |s|
    ensures i <= j <= |s|
    ensures forall k :: i <= k < j ==> p(s[k])
    ensures j < |s| ==> !p(s[j])
    decreases |s| - i
  {
    if i == |s| || !p(s[i]) then i else SpanEnd(s, i + 1, p)
  }

  lemma {:induction false} SpanEndAt(s: string, i: nat, p: char -> bool, j: nat)
    requires i <= j <= |s| && (forall k :: i <= k < j ==> p(s[k])) && (j < |s| ==> !p(s[j]))
    ensures SpanEnd(s, i, p) == j
    decreases j - i
  {
    if i < j {
      SpanEndAt(s, i + 1, p, j);
    }
  }

  /** The leftmost match of `([><=]+)([\d\.]+)`, both groups as long as possible. */
  function FindComparison(s: string): Option<(string, string)> {
    if s == "" then None
    else
      var j := SpanEnd(s, 0, IsModeChar);
      var k := SpanEnd(s, j, IsNumberChar);
      if 0 < j < k then Some((s[..j], s[j..k])) else FindComparison(s[1..])
  }

  predicate SignHolds(mode: string, sum: real, val: real) {
    || (mode == ">" && sum > val)
    || (mode == "<" && sum < val)
    || (mode == "=" && sum == val)
    || (mode == ">=" && sum >= val)
    || (mode == "<=" && sum <= val)
  }

  /** An unreadable number counts as zero, an unknown sign as false. Without a match the source panics. */
  predicate CompareSum(sum: real, computeMode: string)
    requires FindComparison(computeMode).Some?
  {
    var (mode, number) := FindComparison(computeMode).value;
    var parsed := ParseFloat(number);
    SignHolds(mode, sum, if parsed.Some? then parsed.value else 0.0)
  }

  /** What a comparison says about a sum. */
  predicate Holds(c: Comparison, sum: real)
    requires IsComparison(c)
  {
    var bound := NumberValue(c.whole, c.fraction);
    if |c.mode| == 2 then (if c.mode[0] == '>' then sum >= bound else sum <= bound)
    else if c.mode[0] == '>' then sum > bound
    else if c.mode[0] == '<' then sum < bound
    else sum == bound
  }

  /** A printed comparison is found again. */
  lemma FindPrinted(c: Comparison)
    requires IsComparison(c)
    ensures FindComparison(PrintComparison(c)) == Some((c.mode, PrintNumber(c.whole, c.fraction)))
  {
    var number := PrintNumber(c.whole, c.fraction);
    var s, n := c.mode + number, |c.mode|;
    assert number[0] == c.whole[0];
    assert s[n] == number[0];
    SpanEndAt(s, 0, IsModeChar, n);
    forall k | n <= k < |s| ensures IsNumberChar(s[k]) {
      assert s[k] == number[k - n];
      NumberChars(c.whole, c.fraction, k - n);
    }
    SpanEndAt(s, n, IsNumberChar, |s|);
    assert s[..n] == c.mode && s[n..|s|] == number;
  }

  lemma NumberChars(whole: string, fraction: string, k: nat)
    requires IsDigits(whole) && AllDigits(fraction) && k < |PrintNumber(whole, fraction)|
    ensures IsNumberChar(PrintNumber(whole, fraction)[k])
  {
  }

  lemma SignMeaning(c: Comparison, sum: real)
    requires IsComparison(c)
    ensures SignHolds(c.mode, sum, NumberValue(c.whole, c.fraction)) <==> Holds(c, sum)
  {
    var m := c.mode;
    if |m| == 1 {
      assert m == [m[0]];
    } else {
      assert m == [m[0], '='];
    }
  }

  /** Comparing with a printed comparison is what the comparison says. */
  lemma CompareSumMeaning(c: Comparison, sum: real)
    requires IsComparison(c)
    ensures FindComparison(PrintComparison(c)).Some? && (CompareSum(sum, PrintComparison(c)) <==> Holds(c, sum))
  {
    FindPrinted(c);
    ParseFloatBack(c.whole, c.fraction);
    SignMeaning(c, sum);
  }

  // ----- summing -----

  predicate Present(operands: seq<string>, endpoint: string, valMap: map<string, real>) {
    forall i :: 0 <= i < |operands| ==> endpoint + operands[i] in valMap
  }

  /** The values that are present, in order. */
  ghost function Found(operands: seq<string>, endpoint: string, valMap: map<string, real>): (r: seq<real>)
    ensures |r| <= |operands| && (|r| == |operands| <==> Present(operands, endpoint, valMap))
  {
    if operands == [] then []
    else
      var front, key := operands[..|operands| - 1], endpoint + operands[|operands| - 1];
      var before := Found(front, endpoint, valMap);
      assert forall i :: 0 <= i < |front| ==> front[i] == operands[i];
      if key in valMap then before + [valMap[key]] else before
  }

  method QueryOperands(counters: seq<string>, endpoint: string, valMap: map<string, real>) returns (ret: seq<real>)
    ensures ret == Found(counters, endpoint, valMap)
  {
    ret := [];
    for i := 0 to |counters|
      invariant ret == Found(counters[..i], endpoint, valMap)
    {
      assert counters[..i + 1][..i] == counters[..i];
      if endpoint + counters[i] in valMap {
        ret := ret + [valMap[endpoint + counters[i]]];
      }
    }
    assert counters[..|counters|] == counters;
  }

  /** The values of the operands preceded by a plus sign, the first operand among them. */
  ghost function Added(operands: seq<string>, operators: seq<string>, endpoint: string, valMap: map<string, real>): real
    requires 0 < |operands| <= |operators| + 1 && Present(operands, endpoint, valMap)
  {
    var n := |operands| - 1;
    if n == 0 then valMap[endpoint + operands[0]]
    else
      Added(operands[..n], operators, endpoint, valMap)
      + if operators[n - 1] == "+" then valMap[endpoint + operands[n]] else 0.0
  }

  /** The values of the other operands. */
  ghost function Subtracted(operands: seq<string>, operators: seq<string>, endpoint: string,
                            valMap: map<string, real>): real
    requires 0 < |operands| <= |operators| + 1 && Present(operands, endpoint, valMap)
  {
    var n := |operands| - 1;
    if n == 0 then 0.0
    else
      Subtracted(operands[..n], operators, endpoint, valMap)
      + if operators[n - 1] == "+" then 0.0 else valMap[endpoint + operands[n]]
  }

  lemma {:induction false} FoundAll(operands: seq<string>, endpoint: string, valMap: map<string, real>, i: nat)
    requires Present(operands, endpoint, valMap) && i < |operands|
    ensures |Found(operands, endpoint, valMap)| == |operands|
    ensures Found(operands, endpoint, valMap)[i] == valMap[endpoint + operands[i]]
  {
    var front := operands[..|operands| - 1];
    assert Present(front, endpoint, valMap);
    if i < |front| {
      FoundAll(front, endpoint, valMap, i);
      assert front[i] == operands[i];
    }
  }

  /** compute does not panic on these: operators enough for the operands, and a mode with a comparison in it. */
  predicate Computable(p: Parsed) {
    |p.operands| <= |p.operators| + 1 && (p.mode != "" ==> FindComparison(p.mode).Some?)
  }

  /** Nothing without operands or with a value missing; the sum, or 1 or 0 when it is compared. */
  ghost function Computed(p: Parsed, endpoint: string, valMap: map<string, real>): Option<real>
    requires Computable(p)
  {
    if p.operands == [] || !Present(p.operands, endpoint, valMap) then None
    else
      var plus := Added(p.operands, p.operators, endpoint, valMap);
      var sum := plus - Subtracted(p.operands, p.operators, endpoint, valMap);
      Some(if p.mode == "" then sum else if CompareSum(sum, p.mode) then 1.0 else 0.0)
  }

  method Compute(operands: seq<string>, operators: seq<string>, computeMode: string, hostname: string,
                 valMap: map<string, real>) returns (r: Option<real>)
    requires Computable(Parsed(operands, operators, computeMode))
    ensures r == Computed(Parsed(operands, operators, computeMode), hostname, valMap)
  {
    var count := |operands|;
    if count == 0 {
      return None;
    }
    var vals := QueryOperands(operands, hostname, valMap);
    if |vals| != count {
      return None;
    }
    var sum := vals[0];
    FoundAll(operands, hostname, valMap, 0);
    assert operands[..1] == [operands[0]];
    for i := 0 to count - 1
      invariant Present(operands[..i + 1], hostname, valMap)
      invariant sum == Added(operands[..i + 1], operators, hostname, valMap)
                     - Subtracted(operands[..i + 1], operators, hostname, valMap)
    {
      FoundAll(operands, hostname, valMap, i + 1);
      assert operands[..i + 2][..i + 1] == operands[..i + 1];
      if operators[i] == "+" {
        sum := sum + vals[i + 1];
      } else {
        sum := sum - vals[i + 1];
      }
    }
    assert operands[..count] == operands;
    if computeMode == "" {
      return Some(sum);
    }
    r := Some(if CompareSum(sum, computeMode) then 1.0 else 0.0);
  }

  // ----- what an expression means -----

  /** Every operand has a value. */
  ghost predicate Known(operands: seq<string>, value: string -> Option<real>) {
    forall i :: 0 <= i < |operands| ==> value(operands[i]).Some?
  }

  /** The left-to-right value of an expression's sum, over the values of the operands themselves. */
  ghost function Total(operands: seq<string>, operators: seq<char>, value: string -> Option<real>): real
    requires 0 < |operands| == |operators| + 1 && Known(operands, value)
  {
    var n := |operands| - 1;
    var v := value(operands[n]).value;
    if n == 0 then v
    else if operators[n - 1] == '+' then Total(operands[..n], operators[..n - 1], value) + v
    else Total(operands[..n], operators[..n - 1], value) - v
  }

  ghost function Meaning(e: Expr, value: string -> Option<real>): Option<real>
    requires WellFormed(e)
  {
    if !Known(e.operands, value) then None
    else
      var sum := Total(e.operands, e.operators, value);
      Some(if e.comparison.None? then sum else if Holds(e.comparison.value, sum) then 1.0 else 0.0)
  }

  /** What is found for the host under the text of host and operand is the value of the operand. */
  ghost predicate FoundRight(operands: seq<string>, endpoint: string, valMap: map<string, real>,
                             value: string -> Option<real>) {
    forall i :: 0 <= i < |operands| ==> Get(valMap, endpoint + operands[i]) == value(operands[i])
  }

  /** Adding and subtracting as the expression is read is adding all there is to add, less all there is to subtract. */
  lemma {:induction false} TotalSplit(operands: seq<string>, operators: seq<char>, texts: seq<string>, endpoint: string,
                                      valMap: map<string, real>, value: string -> Option<real>)
    requires 0 < |operands| == |operators| + 1 && Present(operands, endpoint, valMap) && Known(operands, value)
    requires FoundRight(operands, endpoint, valMap, value)
    requires |operators| <= |texts| && forall k :: 0 <= k < |operators| ==> texts[k] == [operators[k]]
    ensures Total(operands, operators, value) ==
            Added(operands, texts, endpoint, valMap) - Subtracted(operands, texts, endpoint, valMap)
  {
    var n := |operands| - 1;
    if n > 0 {
      assert Present(operands[..n], endpoint, valMap) && Known(operands[..n], value);
      TotalSplit(operands[..n], operators[..n - 1], texts, endpoint, valMap, value);
      assert texts[n - 1] == [operators[n - 1]];
    }
  }

  lemma KnownIsPresent(operands: seq<string>, endpoint: string, valMap: map<string, real>,
                       value: string -> Option<real>)
    requires FoundRight(operands, endpoint, valMap, value)
    ensures Known(operands, value) <==> Present(operands, endpoint, valMap)
  {
    forall i | 0 <= i < |operands| ensures value(operands[i]).Some? <==> endpoint + operands[i] in valMap {
      assert Get(valMap, endpoint + operands[i]) == value(operands[i]);
    }
  }

  /** Evaluating the intended parse of an expression gives what the expression means, for the values that are found. */
  lemma ComputedMeaning(e: Expr, endpoint: string, valMap: map<string, real>, value: string -> Option<real>)
    requires WellFormed(e) && FoundRight(e.operands, endpoint, valMap, value)
    ensures Computable(Intended(e)) && Computed(Intended(e), endpoint, valMap) == Meaning(e, value)
  {
    KnownIsPresent(e.operands, endpoint, valMap, value);
    if Known(e.operands, value) {
      TotalSplit(e.operands, e.operators, OperatorTexts(e.operators), endpoint, valMap, value);
      if e.comparison.Some? {
        CompareSumMeaning(e.comparison.value, Total(e.operands, e.operators, value));
        ComparisonStart(e.comparison.value);
      }
    }
    if e.comparison.Some? {
      FindPrinted(e.comparison.value);
    }
  }

  /** Whatever the operand names, an accepted expression is parsed into something compute can evaluate. */
  lemma AcceptedIsComputable(val: string)
    requires ExpressionValid(val) && NeedCompute(val)
    ensures |Pieces(val)| > 1 && Computable(ParsedOf(val))
  {
    NeedComputeIff(val);
    var e := Recognise(val).value;
    var b := RecogniseSound(val);
    ParseIsSafe(e, b);
    if e.comparison.Some? {
      FindPrinted(e.comparison.value);
    }
  }
}
