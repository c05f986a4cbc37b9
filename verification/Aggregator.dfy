/** One round of an aggregator worker (modules/aggregator/cron/run.go:15-136, 164-171, 219-227). The values of the
    group's counters are an argument; logging is left out. */
module Aggregator {
  import opened CounterValues
  import opened Options
  import opened Decimal
  import opened ExpressionText
  import opened ExpressionParse
  import opened ExpressionCompute
  import opened Seqs

  // ----- cleaning -----

  /** unicode.IsSpace. */
  predicate IsSpace(c: char) {
    || '\t' <= c <= '\r' || c == ' ' || c == '\U{85}' || c == '\U{A0}' || c == '\U{1680}'
    || '\U{2000}' <= c <= '\U{200A}' || c == '\U{2028}' || c == '\U{2029}' || c == '\U{202F}'
    || c == '\U{205F}' || c == '\U{3000}'
  }

  predicate IsBlank(c: char) {
    c == ' ' || c == '\r' || c == '\n' || c == '\t'
  }

  function TrimSpace(s: string): string {
    if s != "" && IsSpace(s[0]) then TrimSpace(s[1..])
    else if s != "" && IsSpace(s[|s| - 1]) then TrimSpace(s[..|s| - 1])
    else s
  }

  function RemoveBlanks(s: string): (r: string)
    ensures forall i :: 0 <= i < |r| ==> !IsBlank(r[i])
  {
    if s == "" then "" else if IsBlank(s[0]) then RemoveBlanks(s[1..]) else [s[0]] + RemoveBlanks(s[1..])
  }

  function CleanParam(val: string): string {
    RemoveBlanks(TrimSpace(val))
  }

  lemma {:induction false} RemoveBlanksLast(s: string)
    requires s != "" && IsBlank(s[|s| - 1])
    ensures RemoveBlanks(s) == RemoveBlanks(s[..|s| - 1])
  {
    if |s| > 1 {
      RemoveBlanksLast(s[1..]);
      assert s[1..][..|s| - 2] == s[..|s| - 1][1..];
    }
  }

  /** Blanks may be put anywhere into a text: cleaning removes exactly them, as long as no rarer space is in it. */
  lemma {:induction false} CleaningRemovesBlanks(s: string)
    requires forall i :: 0 <= i < |s| ==> IsSpace(s[i]) ==> IsBlank(s[i])
    ensures CleanParam(s) == RemoveBlanks(s)
    decreases |s|
  {
    if s != "" && IsSpace(s[0]) {
      CleaningRemovesBlanks(s[1..]);
    } else if s != "" && IsSpace(s[|s| - 1]) {
      CleaningRemovesBlanks(s[..|s| - 1]);
      RemoveBlanksLast(s);
    }
  }

  /** A text without blanks is left alone. */
  lemma {:induction false} BlankFree(s: string)
    requires forall i :: 0 <= i < |s| ==> !IsBlank(s[i])
    ensures RemoveBlanks(s) == s
  {
    if s != "" {
      BlankFree(s[1..]);
    }
  }

  // ----- one round -----

  method OperatorsValid(ops: seq<string>) returns (ok: bool)
    ensures ok == AllOperators(ops)
  {
    for i := 0 to |ops|
      invariant AllOperators(ops[..i])
    {
      if ops[i] != "+" && ops[i] != "-" {
        return false;
      }
    }
    assert ops[..|ops|] == ops;
    return true;
  }

  /** The hosts for which both sides have a value. */
  ghost function CountBoth(hosts: seq<string>, f: string -> Option<real>, g: string -> Option<real>): nat {
    if hosts == [] then 0
    else
      var n, h := |hosts| - 1, hosts[|hosts| - 1];
      CountBoth(hosts[..n], f, g) + if f(h).Some? && g(h).Some? then 1 else 0
  }

  /** The sum of the first side over those hosts. */
  ghost function SumBoth(hosts: seq<string>, f: string -> Option<real>, g: string -> Option<real>): real {
    if hosts == [] then 0.0
    else
      var n, h := |hosts| - 1, hosts[|hosts| - 1];
      SumBoth(hosts[..n], f, g) + if f(h).Some? && g(h).Some? then f(h).value else 0.0
  }

  lemma NextHost(hosts: seq<string>, i: nat, f: string -> Option<real>, g: string -> Option<real>)
    requires i < |hosts|
    ensures var both := f(hosts[i]).Some? && g(hosts[i]).Some?;
            && CountBoth(hosts[..i + 1], f, g) == CountBoth(hosts[..i], f, g) + (if both then 1 else 0)
            && SumBoth(hosts[..i + 1], f, g) == SumBoth(hosts[..i], f, g) + (if both then f(hosts[i]).value else 0.0)
  {
    assert hosts[..i + 1][..i] == hosts[..i];
  }

  function Both(x: Option<real>, y: Option<real>): Option<(real, real)> {
    if x.Some? && y.Some? then Some((x.value, y.value)) else None
  }

  /** What is kept over the hosts: both sums and the count. */
  ghost predicate TotalsOf(hosts: seq<string>, f: string -> Option<real>, g: string -> Option<real>,
                           a: real, b: real, n: nat) {
    a == SumBoth(hosts, f, g) && b == SumBoth(hosts, g, f) && n == CountBoth(hosts, f, g)
  }

  lemma NextTotals(hosts: seq<string>, i: nat, f: string -> Option<real>, g: string -> Option<real>,
                   a: real, b: real, n: nat)
    requires i < |hosts| && TotalsOf(hosts[..i], f, g, a, b, n)
    ensures match Both(f(hosts[i]), g(hosts[i]))
            case Some(v) => TotalsOf(hosts[..i + 1], f, g, a + v.0, b + v.1, n + 1)
            case None => TotalsOf(hosts[..i + 1], f, g, a, b, n)
  {
    NextHost(hosts, i, f, g);
    NextHost(hosts, i, g, f);
  }

  /** A side's value for each host; a side that needs no computing adds nothing. */
  ghost function TextValue(text: string, valMap: map<string, real>): string -> Option<real>
    requires ExpressionValid(text)
  {
    if NeedCompute(text) then
      AcceptedIsComputable(text);
      h => Computed(ParsedOf(text), h, valMap)
    else h => Some(0.0)
  }

  ghost predicate OperatorsFit(text: string)
    requires ExpressionValid(text)
  {
    NeedCompute(text) ==> (AcceptedIsComputable(text); AllOperators(ParsedOf(text).operators))
  }

  /** A side over all hosts: its sum, the number of hosts, or the constant. */
  ghost function TextTotal(text: string, sum: real, count: nat): real
    requires ExpressionValid(text)
  {
    if NeedCompute(text) then sum else if text == "$#" then count as real else NatOf(text) as real
  }

  ghost function Quotient(a: real, b: real, count: nat): Option<real> {
    if b == 0.0 || count == 0 then None else Some(a / b)
  }

  /** What is pushed for two cleaned texts. */
  ghost function Pushed(num: string, den: string, hosts: seq<string>, valMap: map<string, real>): Option<real> {
    if !ExpressionValid(num) || !ExpressionValid(den) || (!NeedCompute(num) && !NeedCompute(den))
       || !OperatorsFit(num) || !OperatorsFit(den) then None
    else
      var f, g := TextValue(num, valMap), TextValue(den, valMap);
      var count := CountBoth(hosts, f, g);
      Quotient(TextTotal(num, SumBoth(hosts, f, g), count), TextTotal(den, SumBoth(hosts, g, f), count), count)
  }

  /** parse, and whether compute can be trusted with the result. */
  lemma ParsedFits(text: string, p: Parsed)
    requires ExpressionValid(text)
    requires !NeedCompute(text) ==> p == Parsed([], [], "")
    requires NeedCompute(text) ==> |Pieces(text)| > 1 && p == ParsedOf(text)
    ensures Computable(p) && (AllOperators(p.operators) <==> OperatorsFit(text))
  {
    if NeedCompute(text) {
      AcceptedIsComputable(text);
    }
  }

  lemma ConstantIsDigits(text: string)
    requires ExpressionValid(text) && !NeedCompute(text) && text != "$#"
    ensures IsDigits(text)
  {
    NeedComputeIff(text);
  }

  lemma OverOne(a: int, p: nat)
    requires p == 1
    ensures a as real / p as real == a as real
  {
  }

  lemma WholeNumber(text: string)
    requires IsDigits(text)
    ensures ParseFloat(text) == Some(NatOf(text) as real)
  {
    ParseFloatBack(text, "");
    assert PrintNumber(text, "") == text && text + "" == text;
    OverOne(NatOf(text), Pow10(|""|));
  }

  /** The value of one side for one host, when the side needs computing. */
  method HostValue(text: string, p: Parsed, host: string, valMap: map<string, real>) returns (r: Option<real>)
    requires ExpressionValid(text) && Computable(p)
    requires NeedCompute(text) ==> |Pieces(text)| > 1 && p == ParsedOf(text)
    ensures r == TextValue(text, valMap)(host)
  {
    if NeedCompute(text) {
      r := Compute(p.operands, p.operators, p.mode, host, valMap);
    } else {
      r := Some(0.0);
    }
  }

  /** A side after the hosts: what was summed, the number of hosts, or the constant. */
  method SideTotal(text: string, sum: real, validCount: nat) returns (r: Option<real>)
    requires ExpressionValid(text)
    ensures r == Some(TextTotal(text, sum, validCount))
  {
    if NeedCompute(text) {
      r := Some(sum);
    } else if text == "$#" {
      r := Some(validCount as real);
    } else {
      ConstantIsDigits(text);
      WholeNumber(text);
      r := ParseFloat(text);
    }
  }

  /** What two sides keep over the first n hosts. */
  ghost predicate SidesOver(num: string, den: string, hosts: seq<string>, n: nat, valMap: map<string, real>,
                            a: real, b: real, count: nat)
    requires ExpressionValid(num) && ExpressionValid(den) && n <= |hosts|
  {
    TotalsOf(hosts[..n], TextValue(num, valMap), TextValue(den, valMap), a, b, count)
  }

  lemma NextSides(num: string, den: string, hosts: seq<string>, n: nat, valMap: map<string, real>, a: real, b: real,
                  count: nat, values: Option<(real, real)>)
    requires ExpressionValid(num) && ExpressionValid(den) && n < |hosts|
    requires SidesOver(num, den, hosts, n, valMap, a, b, count)
    requires values == Both(TextValue(num, valMap)(hosts[n]), TextValue(den, valMap)(hosts[n]))
    ensures match values
            case Some(v) => SidesOver(num, den, hosts, n + 1, valMap, a + v.0, b + v.1, count + 1)
            case None => SidesOver(num, den, hosts, n + 1, valMap, a, b, count)
  {
    NextTotals(hosts, n, TextValue(num, valMap), TextValue(den, valMap), a, b, count);
  }

  /** What both sides have for one host; a host counts when both have a value. */
  method HostValues(numeratorStr: string, num: Parsed, denominatorStr: string, den: Parsed, host: string,
                    valMap: map<string, real>) returns (values: Option<(real, real)>)
    requires ExpressionValid(numeratorStr) && Computable(num) && ExpressionValid(denominatorStr) && Computable(den)
    requires NeedCompute(numeratorStr) ==> |Pieces(numeratorStr)| > 1 && num == ParsedOf(numeratorStr)
    requires NeedCompute(denominatorStr) ==> |Pieces(denominatorStr)| > 1 && den == ParsedOf(denominatorStr)
    ensures values == Both(TextValue(numeratorStr, valMap)(host), TextValue(denominatorStr, valMap)(host))
  {
    var numeratorVal := HostValue(numeratorStr, num, host, valMap);
    if numeratorVal.None? {
      return None;
    }
    var denominatorVal := HostValue(denominatorStr, den, host, valMap);
    if denominatorVal.None? {
      return None;
    }
    values := Some((numeratorVal.value, denominatorVal.value));
  }

  /** Both sides over all hosts. */
  method OverHosts(numeratorStr: string, num: Parsed, denominatorStr: string, den: Parsed, hostnames: seq<string>,
                   valMap: map<string, real>) returns (numerator: real, denominator: real, validCount: nat)
    requires ExpressionValid(numeratorStr) && Computable(num) && ExpressionValid(denominatorStr) && Computable(den)
    requires NeedCompute(numeratorStr) ==> |Pieces(numeratorStr)| > 1 && num == ParsedOf(numeratorStr)
    requires NeedCompute(denominatorStr) ==> |Pieces(denominatorStr)| > 1 && den == ParsedOf(denominatorStr)
    ensures var f, g := TextValue(numeratorStr, valMap), TextValue(denominatorStr, valMap);
            TotalsOf(hostnames, f, g, numerator, denominator, validCount)
  {
    numerator, denominator, validCount := 0.0, 0.0, 0;
    for i := 0 to |hostnames|
      invariant SidesOver(numeratorStr, denominatorStr, hostnames, i, valMap, numerator, denominator, validCount)
    {
      var values := HostValues(numeratorStr, num, denominatorStr, den, hostnames[i], valMap);
      NextSides(numeratorStr, denominatorStr, hostnames, i, valMap, numerator, denominator, validCount, values);
      if values.None? {
        continue;
      }
      numerator := numerator + values.value.0;
      denominator := denominator + values.value.1;
      validCount := validCount + 1;
    }
    assert hostnames[..|hostnames|] == hostnames;
  }

  /** A side taken apart, and whether its operators are fit to compute with. */
  method ParseSide(text: string) returns (p: Parsed, fits: bool)
    requires ExpressionValid(text)
    ensures Computable(p) && (fits <==> OperatorsFit(text))
    ensures NeedCompute(text) ==> |Pieces(text)| > 1 && p == ParsedOf(text)
  {
    var operands, operators, mode := Parse(text, NeedCompute(text));
    p := Parsed(operands, operators, mode);
    ParsedFits(text, p);
    fits := OperatorsValid(operators);
  }

  /** The quotient of the sides over all hosts. */
  method PushedOver(numeratorStr: string, num: Parsed, denominatorStr: string, den: Parsed, hostnames: seq<string>,
                    valMap: map<string, real>) returns (pushed: Option<real>)
    requires ExpressionValid(numeratorStr) && Computable(num) && ExpressionValid(denominatorStr) && Computable(den)
    requires NeedCompute(numeratorStr) ==> |Pieces(numeratorStr)| > 1 && num == ParsedOf(numeratorStr)
    requires NeedCompute(denominatorStr) ==> |Pieces(denominatorStr)| > 1 && den == ParsedOf(denominatorStr)
    requires OperatorsFit(numeratorStr) && OperatorsFit(denominatorStr)
    requires NeedCompute(numeratorStr) || NeedCompute(denominatorStr)
    ensures pushed == Pushed(numeratorStr, denominatorStr, hostnames, valMap)
  {
    var numerator, denominator, validCount := OverHosts(numeratorStr, num, denominatorStr, den, hostnames, valMap);
    var a := SideTotal(numeratorStr, numerator, validCount);
    var b := SideTotal(denominatorStr, denominator, validCount);
    if a.None? || b.None? || b.value == 0.0 || validCount == 0 {
      return None;
    }
    return Some(a.value / b.value);
  }

  lemma NothingOverNoHosts(num: string, den: string, valMap: map<string, real>)
    ensures Pushed(num, den, [], valMap) == None
  {
  }

  /** A round on cleaned texts. */
  method CleanRound(numeratorStr: string, denominatorStr: string, hostnames: seq<string>, resp: Option<seq<Response>>,
                    begin: int, end: int) returns (pushed: Option<real>)
    ensures pushed == if resp.None? then None
                      else Pushed(numeratorStr, denominatorStr, hostnames, ByText(resp.value, begin, end))
  {
    if !ExpressionValid(numeratorStr) || !ExpressionValid(denominatorStr) {
      return None;
    }
    if !NeedCompute(numeratorStr) && !NeedCompute(denominatorStr) {
      return None;
    }
    var num, numFits := ParseSide(numeratorStr);
    var den, denFits := ParseSide(denominatorStr);
    if !numFits || !denFits {
      return None;
    }
    if |hostnames| == 0 || resp.None? {
      if resp.Some? {
        NothingOverNoHosts(numeratorStr, denominatorStr, ByText(resp.value, begin, end));
      }
      return None;
    }
    var valMap := QueryCounterLast(resp.value, begin, end);
    pushed := PushedOver(numeratorStr, num, denominatorStr, den, hostnames, valMap);
  }

  /** The last two steps are asked for. */
  function AskedFrom(step: int, now: int): int {
    now - step * 2
  }

  /** The values of a round are those of the last two steps. */
  lemma AskedIsRecent(r: Response, step: int, now: int)
    ensures InTime(r, AskedFrom(step, now), now) <==> 0 <= now - r.ts <= 2 * step
  {
  }

  /** One round; `resp` is what the interface answers, `now` the clock. */
  method WorkerRun(numeratorParam: string, denominatorParam: string, hostnames: seq<string>,
                   resp: Option<seq<Response>>, step: int, now: int) returns (pushed: Option<real>)
    ensures resp.None? ==> pushed == None
    ensures resp.Some? ==>
              var begin := AskedFrom(step, now);
              && pushed == Pushed(CleanParam(numeratorParam), CleanParam(denominatorParam), hostnames,
                                  ByText(resp.value, begin, now))
              && Meant(numeratorParam, denominatorParam, hostnames, resp.value, begin, now, pushed)
  {
    var begin := AskedFrom(step, now);
    pushed := CleanRound(CleanParam(numeratorParam), CleanParam(denominatorParam), hostnames, resp, begin, now);
    if resp.Some? {
      TypedRounds(numeratorParam, denominatorParam, hostnames, resp.value, begin, now, pushed);
    }
  }

  // ----- what a round means -----

  /** A side as its author meant it. */
  datatype Side = HostCount | Number(digits: string) | Expression(e: Expr, bracketed: bool)

  ghost predicate Proper(side: Side) {
    match side
    case HostCount => true
    case Number(digits) => IsDigits(digits)
    case Expression(e, bracketed) => WellFormed(e) && DollarFree(e.operands) && !HasWideBracket(Print(e, bracketed))
  }

  ghost function SideText(side: Side): string
    requires Proper(side)
  {
    match side
    case HostCount => "$#"
    case Number(digits) => digits
    case Expression(e, bracketed) => Print(e, bracketed)
  }

  /** The values that came, by host and counter. */
  type Values = map<(string, string), real>

  ghost function ValuesOf(values: Values, host: string): string -> Option<real> {
    counter => Get(values, (host, counter))
  }

  ghost function SideValue(side: Side, values: Values): string -> Option<real>
    requires Proper(side)
  {
    match side
    case Expression(e, _) => (h => Meaning(e, ValuesOf(values, h)))
    case _ => (h => Some(0.0))
  }

  /** The counters a side asks for. */
  function CountersOf(side: Side): seq<string> {
    if side.Expression? then side.e.operands else []
  }

  /** For the hosts and the side's counters, what is found under the text is what came for the pair. */
  ghost predicate Matches(hosts: seq<string>, side: Side, valMap: map<string, real>, values: Values) {
    forall h :: h in hosts ==> FoundRight(CountersOf(side), h, valMap, ValuesOf(values, h))
  }

  ghost function Overall(side: Side, sum: real, count: nat): real
    requires Proper(side)
  {
    match side
    case HostCount => count as real
    case Number(digits) => NatOf(digits) as real
    case Expression(_, _) => sum
  }

  /** The quotient of the two sides over the hosts that have both, unless nothing is asked of the hosts. */
  ghost function Ratio(num: Side, den: Side, hosts: seq<string>, values: Values): Option<real>
    requires Proper(num) && Proper(den)
  {
    var f, g := SideValue(num, values), SideValue(den, values);
    var count := CountBoth(hosts, f, g);
    if !num.Expression? && !den.Expression? then None
    else Quotient(Overall(num, SumBoth(hosts, f, g), count), Overall(den, SumBoth(hosts, g, f), count), count)
  }

  ghost function HasBoth(f: string -> Option<real>, g: string -> Option<real>): string -> bool {
    h => f(h).Some? && g(h).Some?
  }

  ghost function SumOf(hosts: seq<string>, f: string -> Option<real>): real {
    if hosts == [] then 0.0
    else SumOf(hosts[..|hosts| - 1], f) + match f(hosts[|hosts| - 1]) case Some(v) => v case None => 0.0
  }

  lemma SumOfNext(hosts: seq<string>, h: string, f: string -> Option<real>)
    ensures SumOf(hosts + [h], f) == SumOf(hosts, f) + match f(h) case Some(v) => v case None => 0.0
  {
    assert (hosts + [h])[..|hosts|] == hosts;
  }

  /** Counting and summing over the hosts that have both is counting and summing over those hosts alone. */
  lemma {:induction false} BothAreThose(hosts: seq<string>, f: string -> Option<real>, g: string -> Option<real>)
    ensures CountBoth(hosts, f, g) == |Filter(hosts, HasBoth(f, g))|
    ensures SumBoth(hosts, f, g) == SumOf(Filter(hosts, HasBoth(f, g)), f)
  {
    if hosts != [] {
      var init, h := hosts[..|hosts| - 1], hosts[|hosts| - 1];
      BothAreThose(init, f, g);
      SumOfNext(Filter(init, HasBoth(f, g)), h, f);
    }
  }

  lemma SameHosts(hosts: seq<string>, f: string -> Option<real>, g: string -> Option<real>)
    ensures Filter(hosts, HasBoth(g, f)) == Filter(hosts, HasBoth(f, g))
    decreases |hosts|
  {
    if hosts != [] {
      SameHosts(hosts[..|hosts| - 1], f, g);
    }
  }

  /** What is pushed for two sides: something if and only if one of them asks the hosts, some host has both, and the
      denominator is not zero; and then it times the denominator is the numerator, over the hosts that have both. */
  ghost predicate IsQuotient(pushed: Option<real>, num: Side, den: Side, hosts: seq<string>, values: Values)
    requires Proper(num) && Proper(den)
  {
    var f, g := SideValue(num, values), SideValue(den, values);
    var those := Filter(hosts, HasBoth(f, g));
    var a, b := Overall(num, SumOf(those, f), |those|), Overall(den, SumOf(those, g), |those|);
    && (pushed.Some? <==> (num.Expression? || den.Expression?) && those != [] && b != 0.0)
    && Divides(pushed, a, b)
  }

  lemma DividedTimes(a: real, b: real)
    requires b != 0.0
    ensures a / b * b == a
  {
  }

  ghost predicate Divides(q: Option<real>, a: real, b: real) {
    q.Some? ==> q.value * b == a
  }

  lemma QuotientIs(a: real, b: real, count: nat)
    ensures Quotient(a, b, count).Some? <==> b != 0.0 && count != 0
    ensures Divides(Quotient(a, b, count), a, b)
  {
    if b != 0.0 {
      DividedTimes(a, b);
    }
  }

  lemma RatioIsQuotient(num: Side, den: Side, hosts: seq<string>, values: Values)
    requires Proper(num) && Proper(den)
    ensures IsQuotient(Ratio(num, den, hosts, values), num, den, hosts, values)
  {
    var f, g := SideValue(num, values), SideValue(den, values);
    BothAreThose(hosts, f, g);
    BothAreThose(hosts, g, f);
    SameHosts(hosts, f, g);
    var those := Filter(hosts, HasBoth(f, g));
    QuotientIs(Overall(num, SumOf(those, f), |those|), Overall(den, SumOf(those, g), |those|), |those|);
  }

  lemma {:induction false} SumsAgree(hosts: seq<string>, f: string -> Option<real>, g: string -> Option<real>,
                                     f': string -> Option<real>, g': string -> Option<real>)
    requires forall h :: h in hosts ==> f(h) == f'(h) && g(h) == g'(h)
    ensures CountBoth(hosts, f, g) == CountBoth(hosts, f', g') && SumBoth(hosts, f, g) == SumBoth(hosts, f', g')
  {
    if hosts != [] {
      SumsAgree(hosts[..|hosts| - 1], f, g, f', g');
    }
  }

  lemma DigitsNeedNothing(s: string)
    requires AllDigits(s)
    ensures !NeedCompute(s) && !HasWideBracket(s) && s != "$#"
  {
    assert "$#"[0] == '$';
  }

  /** An expression's text is accepted and needs computing, with operators that fit. */
  lemma ExpressionAccepted(e: Expr, bracketed: bool)
    requires Proper(Expression(e, bracketed))
    ensures var text := Print(e, bracketed);
            ExpressionValid(text) && NeedCompute(text) && |Pieces(text)| > 1 && ParsedOf(text) == Intended(e)
    ensures AllOperators(Intended(e).operators)
  {
    RecogniseBack(e, bracketed);
    PrintedNeedsCompute(e, bracketed);
    ParsePrinted(e, bracketed);
  }

  lemma ExpressionMeaning(e: Expr, bracketed: bool, h: string, valMap: map<string, real>, values: Values)
    requires Proper(Expression(e, bracketed)) && FoundRight(e.operands, h, valMap, ValuesOf(values, h))
    ensures var text := Print(e, bracketed);
            ExpressionValid(text) && TextValue(text, valMap)(h) == Meaning(e, ValuesOf(values, h))
  {
    ExpressionAccepted(e, bracketed);
    ComputedMeaning(e, h, valMap, ValuesOf(values, h));
  }

  /** A side's text is accepted, and stands for what its author meant. */
  lemma SideMeaning(side: Side, hosts: seq<string>, valMap: map<string, real>, values: Values)
    requires Proper(side) && Matches(hosts, side, valMap, values)
    ensures ExpressionValid(SideText(side)) && OperatorsFit(SideText(side))
    ensures NeedCompute(SideText(side)) <==> side.Expression?
    ensures forall h :: h in hosts ==> TextValue(SideText(side), valMap)(h) == SideValue(side, values)(h)
    ensures forall sum, count :: TextTotal(SideText(side), sum, count) == Overall(side, sum, count)
  {
    match side {
      case HostCount =>
      case Number(digits) =>
        DigitsNeedNothing(digits);
      case Expression(e, bracketed) =>
        ExpressionAccepted(e, bracketed);
        forall h | h in hosts ensures TextValue(SideText(side), valMap)(h) == SideValue(side, values)(h) {
          ExpressionMeaning(e, bracketed, h, valMap, values);
        }
    }
  }

  /** A round on two cleaned texts pushes the quotient their author meant, when the values are found as they came. */
  lemma CleanRoundMeaning(num: Side, den: Side, hosts: seq<string>, valMap: map<string, real>, values: Values)
    requires Proper(num) && Proper(den) && Matches(hosts, num, valMap, values) && Matches(hosts, den, valMap, values)
    ensures Pushed(SideText(num), SideText(den), hosts, valMap) == Ratio(num, den, hosts, values)
  {
    SideMeaning(num, hosts, valMap, values);
    SideMeaning(den, hosts, valMap, values);
    SumsAgree(hosts, TextValue(SideText(num), valMap), TextValue(SideText(den), valMap),
              SideValue(num, values), SideValue(den, values));
    SumsAgree(hosts, TextValue(SideText(den), valMap), TextValue(SideText(num), valMap),
              SideValue(den, values), SideValue(num, values));
  }

  lemma RightIsMatch(resp: seq<Response>, hosts: seq<string>, counters: seq<string>, begin: int, end: int, side: Side)
    requires LookupsRight(resp, hosts, counters, begin, end) && forall c :: c in CountersOf(side) ==> c in counters
    ensures Matches(hosts, side, ByText(resp, begin, end), ByPair(resp, begin, end))
  {
  }

  /** A text as a user types it: the side's own text with blanks anywhere, and no rarer space. */
  ghost predicate Typed(text: string, side: Side)
    requires Proper(side)
  {
    RemoveBlanks(text) == SideText(side) && forall i :: 0 <= i < |text| ==> IsSpace(text[i]) ==> IsBlank(text[i])
  }

  /** A blank may be typed anywhere. */
  lemma {:induction false} BlankAnywhere(a: string, c: char, b: string)
    requires IsBlank(c)
    ensures RemoveBlanks(a + ([c] + b)) == RemoveBlanks(a + b)
  {
    if a == "" {
      assert a + ([c] + b) == [c] + b && a + b == b;
      assert ([c] + b)[1..] == b;
    } else {
      BlankAnywhere(a[1..], c, b);
      assert (a + ([c] + b))[1..] == a[1..] + ([c] + b) && (a + b)[1..] == a[1..] + b;
    }
  }

  /** The two sides as typed, with an answer for their counters alone, and no two of the hosts and counters running
      together to the same text. */
  ghost predicate RightlyAsked(numeratorParam: string, denominatorParam: string, num: Side, den: Side,
                               hosts: seq<string>, resp: seq<Response>) {
    && Proper(num) && Proper(den) && Typed(numeratorParam, num) && Typed(denominatorParam, den)
    && Asked(resp, hosts, CountersOf(num) + CountersOf(den))
    && Separable(hosts, CountersOf(num) + CountersOf(den))
  }

  /** A round on two typed texts, blanks included, pushes the quotient their author meant, over the values that came for
      each host and counter. */
  lemma RoundMeaning(numeratorParam: string, denominatorParam: string, num: Side, den: Side, hosts: seq<string>,
                     resp: seq<Response>, begin: int, end: int)
    requires RightlyAsked(numeratorParam, denominatorParam, num, den, hosts, resp)
    ensures var valMap := ByText(resp, begin, end);
            Pushed(CleanParam(numeratorParam), CleanParam(denominatorParam), hosts, valMap) ==
            Ratio(num, den, hosts, ByPair(resp, begin, end))
  {
    var counters := CountersOf(num) + CountersOf(den);
    CleaningRemovesBlanks(numeratorParam);
    CleaningRemovesBlanks(denominatorParam);
    SeparableIsRight(resp, hosts, counters, begin, end);
    RightIsMatch(resp, hosts, counters, begin, end, num);
    RightIsMatch(resp, hosts, counters, begin, end, den);
    CleanRoundMeaning(num, den, hosts, ByText(resp, begin, end), ByPair(resp, begin, end));
  }

  /** Whatever two sides the texts were typed for, what is pushed is their quotient. */
  ghost predicate Meant(numeratorParam: string, denominatorParam: string, hosts: seq<string>, resp: seq<Response>,
                        begin: int, end: int, pushed: Option<real>) {
    forall num, den :: RightlyAsked(numeratorParam, denominatorParam, num, den, hosts, resp) ==>
      IsQuotient(pushed, num, den, hosts, ByPair(resp, begin, end))
  }

  lemma TypedRounds(numeratorParam: string, denominatorParam: string, hosts: seq<string>, resp: seq<Response>,
                    begin: int, end: int, pushed: Option<real>)
    requires var valMap := ByText(resp, begin, end);
             pushed == Pushed(CleanParam(numeratorParam), CleanParam(denominatorParam), hosts, valMap)
    ensures Meant(numeratorParam, denominatorParam, hosts, resp, begin, end, pushed)
  {
    forall num, den | RightlyAsked(numeratorParam, denominatorParam, num, den, hosts, resp)
      ensures IsQuotient(pushed, num, den, hosts, ByPair(resp, begin, end))
    {
      RoundMeaning(numeratorParam, denominatorParam, num, den, hosts, resp, begin, end);
      RatioIsQuotient(num, den, hosts, ByPair(resp, begin, end));
    }
  }
}
