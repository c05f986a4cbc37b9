/** The aggregator's expressions (modules/aggregator/cron/run.go:180-217) and which texts are accepted.
    The four fixed regular expressions are recognised by hand-written recognisers, tied to the languages
    they describe. */
module ExpressionText {
  import opened Options
  import opened Decimal

  // ----- expressions and their text -----

  /** A comparison against a decimal number, kept as its digits. */
  datatype Comparison = Comparison(mode: string, whole: string, fraction: string)

  /** Operand names, the operators between them, and an optional comparison. */
  datatype Expr = Expr(operands: seq<string>, operators: seq<char>, comparison: Option<Comparison>)

  predicate IsOperator(c: char) {
    c == '+' || c == '-'
  }

  predicate IsModeChar(c: char) {
    c == '>' || c == '=' || c == '<'
  }

  /** `>|=|<|>=|<=`. */
  predicate IsMode(m: string) {
    || (|m| == 1 && IsModeChar(m[0]))
    || (|m| == 2 && (m[0] == '>' || m[0] == '<') && m[1] == '=')
  }

  /** `[^()]+`. */
  predicate IsName(s: string) {
    s != "" && '(' !in s && ')' !in s
  }

  predicate IsDigits(s: string) {
    s != "" && AllDigits(s)
  }

  /** `(>|=|<|>=|<=)\d+(\.\d+)?`; an empty fraction means there is none. */
  predicate IsComparison(c: Comparison) {
    IsMode(c.mode) && IsDigits(c.whole) && AllDigits(c.fraction)
  }

  predicate WellFormed(e: Expr) {
    && e.operands != [] && |e.operators| == |e.operands| - 1
    && (forall i :: 0 <= i < |e.operands| ==> IsName(e.operands[i]))
    && (forall i :: 0 <= i < |e.operators| ==> IsOperator(e.operators[i]))
    && (e.comparison.Some? ==> IsComparison(e.comparison.value))
  }

  function PrintOperand(name: string): string {
    "$(" + name + ")"
  }

  /** `$(a)+$(b)-$(c)`. */
  function PrintSum(operands: seq<string>, operators: seq<char>): string
    requires operands != [] && |operators| == |operands| - 1
  {
    if |operands| == 1 then PrintOperand(operands[0])
    else PrintOperand(operands[0]) + [operators[0]] + PrintSum(operands[1..], operators[1..])
  }

  function PrintNumber(whole: string, fraction: string): string {
    if fraction == "" then whole else whole + "." + fraction
  }

  function PrintComparison(c: Comparison): string {
    c.mode + PrintNumber(c.whole, c.fraction)
  }

  /** A sum of several operands is bracketed before a comparison; `bracketed` allows brackets around one. */
  function Print(e: Expr, bracketed: bool): string
    requires WellFormed(e)
  {
    var sum := PrintSum(e.operands, e.operators);
    match e.comparison
    case None => sum
    case Some(c) => (if |e.operands| > 1 || bracketed then "(" + sum + ")" else sum) + PrintComparison(c)
  }

  // ----- recognising -----

  /** The first index from `i` on that holds a bracket, or the end. */
  function NameEnd(s: string, i: nat): (j: nat)
    requires i <= |s|
    ensures i <= j <= |s|
    ensures forall k :: i <= k < j ==> s[k] != '(' && s[k] != ')'
    ensures j < |s| ==> s[j] == '(' || s[j] == ')'
    decreases |s| - i
  {
    if i == |s| || s[i] == '(' || s[i] == ')' then i else NameEnd(s, i + 1)
  }

  /** `\$\([^\(\)]+\)` at the front: the name and the rest. */
  function ReadOperand(s: string): (r: Option<(string, string)>)
    ensures r.Some? ==> IsName(r.value.0) && s == PrintOperand(r.value.0) + r.value.1
  {
    if |s| < 2 || s[0] != '$' || s[1] != '(' then None
    else
      var j := NameEnd(s, 2);
      if j == 2 || j == |s| || s[j] != ')' then None
      else
        assert s == "$(" + s[2..j] + ")" + s[j + 1..];
        Some((s[2..j], s[j + 1..]))
  }

  lemma OperandBack(name: string, rest: string)
    requires IsName(name)
    ensures ReadOperand(PrintOperand(name) + rest) == Some((name, rest))
  {
    var s := PrintOperand(name) + rest;
    var j := 2 + |name|;
    assert s[2..j] == name && s[j] == ')' && s[j + 1..] == rest;
    forall k | 2 <= k < j ensures s[k] != '(' && s[k] != ')' {
      assert s[k] == name[k - 2];
    }
    assert NameEnd(s, 2) == j;
  }

  /** Operands and operators read off the front of a text, and what is left of it. */
  datatype SumText = SumText(operands: seq<string>, operators: seq<char>, rest: string)

  ghost predicate IsSum(operands: seq<string>, operators: seq<char>) {
    && operands != [] && |operators| == |operands| - 1
    && (forall i :: 0 <= i < |operands| ==> IsName(operands[i]))
    && (forall i :: 0 <= i < |operators| ==> IsOperator(operators[i]))
  }

  /** `(\$\([^\(\)]+\)[+-])*\$\([^\(\)]+\)` at the front, as long as it goes. */
  function ReadSum(s: string): (r: Option<SumText>)
    decreases |s|
  {
    match ReadOperand(s)
    case None => None
    case Some((name, rest)) =>
      if rest == "" || !IsOperator(rest[0]) then Some(SumText([name], [], rest))
      else
        match ReadSum(rest[1..])
        case None => None
        case Some(more) => Some(SumText([name] + more.operands, [rest[0]] + more.operators, more.rest))
  }

  lemma PrintSumCons(name: string, op: char, operands: seq<string>, operators: seq<char>)
    requires operands != [] && |operators| == |operands| - 1
    ensures PrintSum([name] + operands, [op] + operators) == PrintOperand(name) + [op] + PrintSum(operands, operators)
  {
    assert ([name] + operands)[1..] == operands && ([op] + operators)[1..] == operators;
  }

  lemma IsSumCons(name: string, op: char, operands: seq<string>, operators: seq<char>)
    requires IsSum(operands, operators) && IsName(name) && IsOperator(op)
    ensures IsSum([name] + operands, [op] + operators)
  {
  }

  lemma IsSumTail(operands: seq<string>, operators: seq<char>)
    requires IsSum(operands, operators) && |operands| > 1
    ensures IsSum(operands[1..], operators[1..]) && IsName(operands[0]) && IsOperator(operators[0])
    ensures [operands[0]] + operands[1..] == operands && [operators[0]] + operators[1..] == operators
  {
  }

  lemma Regroup<T>(a: seq<T>, b: T, c: seq<T>, d: seq<T>)
    ensures (a + [b] + c) + d == a + ([b] + (c + d))
    ensures ([b] + (c + d))[1..] == c + d
  {
  }

  lemma {:induction false} SumSound(s: string)
    requires ReadSum(s).Some?
    ensures var t := ReadSum(s).value; IsSum(t.operands, t.operators) && s == PrintSum(t.operands, t.operators) + t.rest
    decreases |s|
  {
    var (name, rest) := ReadOperand(s).value;
    if rest != "" && IsOperator(rest[0]) {
      SumSound(rest[1..]);
      var more := ReadSum(rest[1..]).value;
      IsSumCons(name, rest[0], more.operands, more.operators);
      PrintSumCons(name, rest[0], more.operands, more.operators);
      Regroup(PrintOperand(name), rest[0], PrintSum(more.operands, more.operators), more.rest);
      assert rest == [rest[0]] + rest[1..];
    }
  }

  /** One operand and its operator are read off, then the rest of the sum. */
  lemma SumBackStep(name: string, op: char, operands: seq<string>, operators: seq<char>, rest: string)
    requires IsSum(operands, operators) && IsName(name) && IsOperator(op)
    requires ReadSum(PrintSum(operands, operators) + rest) == Some(SumText(operands, operators, rest))
    ensures ReadSum(PrintSum([name] + operands, [op] + operators) + rest) ==
         Some(SumText([name] + operands, [op] + operators, rest))
  {
    var tail := PrintSum(operands, operators);
    PrintSumCons(name, op, operands, operators);
    Regroup(PrintOperand(name), op, tail, rest);
    OperandBack(name, [op] + (tail + rest));
  }

  /** A printed sum is read back, whatever follows it other than an operator. */
  lemma {:induction false} SumBack(operands: seq<string>, operators: seq<char>, rest: string)
    requires IsSum(operands, operators) && (rest != "" ==> !IsOperator(rest[0]))
    ensures ReadSum(PrintSum(operands, operators) + rest) == Some(SumText(operands, operators, rest))
  {
    if |operands| == 1 {
      OperandBack(operands[0], rest);
      assert operands == [operands[0]] && operators == [];
    } else {
      IsSumTail(operands, operators);
      SumBack(operands[1..], operators[1..], rest);
      SumBackStep(operands[0], operators[0], operands[1..], operators[1..], rest);
    }
  }

  function DigitsEnd(s: string, i: nat): (j: nat)
    requires i <= |s|
    ensures i <= j <= |s|
    ensures forall k :: i <= k < j ==> IsDigit(s[k])
    ensures j < |s| ==> !IsDigit(s[j])
    decreases |s| - i
  {
    if i == |s| || !IsDigit(s[i]) then i else DigitsEnd(s, i + 1)
  }

  /** The digits end where something else begins. */
  lemma {:induction false} DigitsEndAt(s: string, i: nat, j: nat)
    requires i <= j <= |s| && (forall k :: i <= k < j ==> IsDigit(s[k])) && (j < |s| ==> !IsDigit(s[j]))
    ensures DigitsEnd(s, i) == j
    decreases j - i
  {
    if i < j {
      DigitsEndAt(s, i + 1, j);
    }
  }

  /** `\d+(\.\d+)?` as the whole text: the digits before and after the point. */
  function ReadNumber(s: string): (r: Option<(string, string)>)
    ensures r.Some? ==> IsDigits(r.value.0) && AllDigits(r.value.1) && s == PrintNumber(r.value.0, r.value.1)
  {
    var j := DigitsEnd(s, 0);
    if j == 0 then None
    else if j == |s| then Some((s, ""))
    else if s[j] == '.' && IsDigits(s[j + 1..]) then
      assert s == s[..j] + "." + s[j + 1..];
      Some((s[..j], s[j + 1..]))
    else None
  }

  lemma NumberBack(whole: string, fraction: string)
    requires IsDigits(whole) && AllDigits(fraction)
    ensures ReadNumber(PrintNumber(whole, fraction)) == Some((whole, fraction))
  {
    var s := PrintNumber(whole, fraction);
    forall k | 0 <= k < |whole| ensures s[k] == whole[k] {
    }
    DigitsEndAt(s, 0, |whole|);
    if fraction != "" {
      assert s[..|whole|] == whole && s[|whole| + 1..] == fraction;
    }
  }

  /** The comparison sign at the front, as long as it goes; 0 when there is none. */
  function ModeEnd(s: string): (n: nat)
    ensures n <= |s| && (n > 0 ==> IsMode(s[..n]))
  {
    if |s| >= 2 && (s[0] == '>' || s[0] == '<') && s[1] == '=' then 2
    else if |s| >= 1 && IsModeChar(s[0]) then 1
    else 0
  }

  /** `(>|=|<|>=|<=)\d+(\.\d+)?` as the whole text. */
  function ReadComparison(s: string): (r: Option<Comparison>)
    ensures r.Some? ==> IsComparison(r.value) && PrintComparison(r.value) == s
  {
    var n := ModeEnd(s);
    if n == 0 then None
    else
      match ReadNumber(s[n..])
      case None => None
      case Some((whole, fraction)) => Some(Comparison(s[..n], whole, fraction))
  }

  lemma ComparisonBack(c: Comparison)
    requires IsComparison(c)
    ensures ReadComparison(PrintComparison(c)) == Some(c)
  {
    var number := PrintNumber(c.whole, c.fraction);
    var s := c.mode + number;
    NumberBack(c.whole, c.fraction);
    assert IsDigit(number[0]) by { assert number[0] == c.whole[0]; }
    assert s[|c.mode|] == number[0];
    assert s[..|c.mode|] == c.mode && s[|c.mode|..] == number;
  }

  lemma ComparisonStart(c: Comparison)
    requires IsComparison(c)
    ensures PrintComparison(c) != "" && IsModeChar(PrintComparison(c)[0])
  {
    assert PrintComparison(c)[0] == c.mode[0];
  }

  /** `^\((\$\([^\(\)]+\)[+-])*\$\([^\(\)]+\)\)(>|=|<|>=|<=)\d+(\.\d+)?$`, after the opening bracket. */
  function RecogniseBracketed(s: string): Option<Expr> {
    match ReadSum(s)
    case None => None
    case Some(t) =>
      if t.rest == "" || t.rest[0] != ')' then None
      else
        match ReadComparison(t.rest[1..])
        case None => None
        case Some(c) => Some(Expr(t.operands, t.operators, Some(c)))
  }

  /** A sum alone, or one operand and a comparison. */
  function RecogniseBare(s: string): Option<Expr> {
    match ReadSum(s)
    case None => None
    case Some(t) =>
      if t.rest == "" then Some(Expr(t.operands, t.operators, None))
      else if |t.operands| > 1 then None
      else
        match ReadComparison(t.rest)
        case None => None
        case Some(c) => Some(Expr(t.operands, t.operators, Some(c)))
  }

  /** The first three patterns of expressionValid, with what they match. */
  function Recognise(s: string): Option<Expr> {
    if s != "" && s[0] == '(' then RecogniseBracketed(s[1..]) else RecogniseBare(s)
  }

  lemma SumStart(operands: seq<string>, operators: seq<char>, rest: string)
    requires IsSum(operands, operators)
    ensures (PrintSum(operands, operators) + rest)[0] == '$'
  {
    assert PrintOperand(operands[0])[0] == '$';
  }

  lemma BracketedBack(operands: seq<string>, operators: seq<char>, c: Comparison)
    requires IsSum(operands, operators) && IsComparison(c)
    ensures RecogniseBracketed(PrintSum(operands, operators) + ([')'] + PrintComparison(c))) ==
         Some(Expr(operands, operators, Some(c)))
  {
    var rest := [')'] + PrintComparison(c);
    assert rest[1..] == PrintComparison(c);
    SumBack(operands, operators, rest);
    ComparisonBack(c);
  }

  lemma BareSumBack(operands: seq<string>, operators: seq<char>)
    requires IsSum(operands, operators)
    ensures RecogniseBare(PrintSum(operands, operators)) == Some(Expr(operands, operators, None))
  {
    SumBack(operands, operators, "");
    assert PrintSum(operands, operators) + "" == PrintSum(operands, operators);
  }

  lemma BareComparisonBack(operands: seq<string>, operators: seq<char>, c: Comparison)
    requires IsSum(operands, operators) && |operands| == 1 && IsComparison(c)
    ensures RecogniseBare(PrintSum(operands, operators) + PrintComparison(c)) ==
            Some(Expr(operands, operators, Some(c)))
  {
    ComparisonStart(c);
    SumBack(operands, operators, PrintComparison(c));
    ComparisonBack(c);
  }

  lemma BracketedText(sum: string, text: string)
    ensures "(" + sum + ")" + text == ['('] + (sum + ([')'] + text))
    ensures ("(" + sum + ")" + text)[1..] == sum + ([')'] + text)
  {
  }

  /** A printed expression is recognised as itself. */
  lemma RecogniseBack(e: Expr, bracketed: bool)
    requires WellFormed(e)
    ensures Recognise(Print(e, bracketed)) == Some(e)
  {
    var sum := PrintSum(e.operands, e.operators);
    match e.comparison {
      case None =>
        SumStart(e.operands, e.operators, "");
        BareSumBack(e.operands, e.operators);
      case Some(c) =>
        if |e.operands| > 1 || bracketed {
          BracketedText(sum, PrintComparison(c));
          BracketedBack(e.operands, e.operators, c);
        } else {
          SumStart(e.operands, e.operators, PrintComparison(c));
          BareComparisonBack(e.operands, e.operators, c);
        }
    }
  }

  lemma BracketedSound(s: string)
    requires RecogniseBracketed(s).Some?
    ensures var e := RecogniseBracketed(s).value;
            WellFormed(e) && e.comparison.Some?
            && s == PrintSum(e.operands, e.operators) + ([')'] + PrintComparison(e.comparison.value))
  {
    SumSound(s);
    var t := ReadSum(s).value;
    assert t.rest == [')'] + t.rest[1..];
  }

  lemma BareSound(s: string)
    requires RecogniseBare(s).Some?
    ensures WellFormed(RecogniseBare(s).value) && s == Print(RecogniseBare(s).value, false)
  {
    SumSound(s);
    var t := ReadSum(s).value;
    if t.rest == "" {
      assert PrintSum(t.operands, t.operators) + "" == PrintSum(t.operands, t.operators);
    }
  }

  /** Whatever is recognised is the text of the expression. */
  lemma RecogniseSound(s: string) returns (bracketed: bool)
    requires Recognise(s).Some?
    ensures WellFormed(Recognise(s).value) && s == Print(Recognise(s).value, bracketed)
  {
    var e := Recognise(s).value;
    bracketed := s != "" && s[0] == '(';
    if bracketed {
      BracketedSound(s[1..]);
      BracketedText(PrintSum(e.operands, e.operators), PrintComparison(e.comparison.value));
      assert s == ['('] + s[1..];
    } else {
      BareSound(s);
    }
  }

  predicate HasWideBracket(s: string) {
    '\U{FF08}' in s || '\U{FF09}' in s
  }

  predicate ExpressionValid(val: string) {
    !HasWideBracket(val) && (val == "$#" || Recognise(val).Some? || IsDigits(val))
  }

  /** Accepted is exactly: the host count, a number, or a printed expression, without wide brackets. */
  lemma ExpressionValidIff(val: string)
    ensures ExpressionValid(val) <==>
            !HasWideBracket(val) && (val == "$#" || IsDigits(val) || exists e, b :: WellFormed(e) && val == Print(e, b))
  {
    if Recognise(val).Some? {
      var b := RecogniseSound(val);
      assert val == Print(Recognise(val).value, b);
    }
    if e, b :| WellFormed(e) && val == Print(e, b) {
      RecogniseBack(e, b);
    }
  }
}
