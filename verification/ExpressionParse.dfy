/** Taking an aggregator expression apart (modules/aggregator/cron/run.go:138-178): the text is split around
    runs of `$`, `(` and `)`, and the pieces are dealt out to operands and operators. */
module ExpressionParse {
  import opened Options
  import opened ExpressionText

  predicate IsSeparator(c: char) {
    c == '$' || c == '(' || c == ')'
  }

  predicate IsWord(s: string) {
    forall i :: 0 <= i < |s| ==> !IsSeparator(s[i])
  }

  predicate IsRun(s: string) {
    s != "" && forall i :: 0 <= i < |s| ==> IsSeparator(s[i])
  }

  /** The pieces of a text around the longest runs of separators, as `Split` of `[\$\(\)]+` gives them. */
  function Pieces(s: string): (p: seq<string>)
    ensures p != []
    ensures forall i :: 0 <= i < |p| ==> IsWord(p[i])
    ensures s != "" && IsSeparator(s[0]) ==> |p| > 1 && p[0] == ""
  {
    if s == "" then [""]
    else if !IsSeparator(s[0]) then
      var p := Pieces(s[1..]);
      [[s[0]] + p[0]] + p[1..]
    else if |s| > 1 && IsSeparator(s[1]) then Pieces(s[1..])
    else [""] + Pieces(s[1..])
  }

  lemma CharFirst(c: char, s: string)
    requires !IsSeparator(c)
    ensures Pieces([c] + s) == [[c] + Pieces(s)[0]] + Pieces(s)[1..]
  {
    assert ([c] + s)[1..] == s;
  }

  lemma Lengthen<T>(c: T, w: seq<T>, first: seq<T>, rest: seq<seq<T>>)
    ensures [[c] + ([w + first] + rest)[0]] + ([w + first] + rest)[1..] == [([c] + w) + first] + rest
  {
    assert [c] + (w + first) == ([c] + w) + first;
  }

  /** A word before a text lengthens the first piece. */
  lemma {:induction false} WordFirst(w: string, s: string)
    requires IsWord(w)
    ensures Pieces(w + s) == [w + Pieces(s)[0]] + Pieces(s)[1..]
  {
    if w == "" {
      assert w + s == s && w + Pieces(s)[0] == Pieces(s)[0];
    } else {
      WordFirst(w[1..], s);
      CharFirst(w[0], w[1..] + s);
      Lengthen(w[0], w[1..], Pieces(s)[0], Pieces(s)[1..]);
      assert [w[0]] + w[1..] == w && [w[0]] + (w[1..] + s) == w + s;
    }
  }

  /** A run of separators before a text that begins with something else cuts off an empty first piece. */
  lemma {:induction false} RunFirst(r: string, s: string)
    requires IsRun(r) && (s != "" ==> !IsSeparator(s[0]))
    ensures Pieces(r + s) == [""] + Pieces(s)
  {
    assert (r + s)[1..] == r[1..] + s;
    if |r| == 1 {
      assert r[1..] + s == s;
    } else {
      assert (r + s)[1] == r[1];
      RunFirst(r[1..], s);
    }
  }

  lemma SeparatorFirst(c: char, s: string)
    requires IsSeparator(c) && s != "" && IsSeparator(s[0])
    ensures Pieces([c] + s) == Pieces(s)
  {
    assert ([c] + s)[1..] == s;
  }

  lemma BracketFirst(before: string, s: string)
    requires (before == "" || before == "(") && s != "" && IsSeparator(s[0])
    ensures Pieces(before + s) == Pieces(s)
  {
    if before == "(" {
      SeparatorFirst('(', s);
    } else {
      assert before + s == s;
    }
  }

  lemma WordAlone(w: string)
    requires IsWord(w)
    ensures Pieces(w) == [w]
  {
    WordFirst(w, "");
    assert w + "" == w;
  }

  /** Without a separator there is one piece, the text itself. */
  lemma {:induction false} OnePieceIff(s: string)
    ensures |Pieces(s)| == 1 <==> IsWord(s)
  {
    if s != "" && !IsSeparator(s[0]) {
      OnePieceIff(s[1..]);
      assert s == [s[0]] + s[1..];
    }
  }

  // ----- the pieces of a printed expression -----

  /** Operands and operators in the order they are written. */
  function Interleave(operands: seq<string>, operators: seq<char>): seq<string>
    requires operands != [] && |operators| == |operands| - 1
  {
    if |operands| == 1 then [operands[0]]
    else [operands[0], [operators[0]]] + Interleave(operands[1..], operators[1..])
  }

  ghost predicate DollarFree(operands: seq<string>) {
    forall i :: 0 <= i < |operands| ==> '$' !in operands[i]
  }

  lemma WordThenRun(w: string, r: string, s: string)
    requires IsWord(w) && IsRun(r) && (s != "" ==> !IsSeparator(s[0]))
    ensures Pieces(w + (r + s)) == [w] + Pieces(s)
  {
    WordFirst(w, r + s);
    RunFirst(r, s);
    assert w + "" == w;
  }

  /** A name between two runs is one piece. */
  lemma NameCut(open: string, name: string, close: string, s: string)
    requires IsRun(open) && name != "" && IsWord(name) && IsRun(close) && (s != "" ==> !IsSeparator(s[0]))
    ensures Pieces(open + (name + (close + s))) == [""] + ([name] + Pieces(s))
  {
    WordThenRun(name, close, s);
    RunFirst(open, name + (close + s));
  }

  /** An operator before a text that begins with a separator is one piece. */
  lemma OperatorCut(op: char, s: string)
    requires IsOperator(op) && s != "" && IsSeparator(s[0])
    ensures Pieces([op] + s) == [[op]] + Pieces(s)[1..]
  {
    WordFirst([op], s);
    assert [op] + "" == [op];
  }

  lemma OperandText(name: string, rest: string)
    ensures PrintOperand(name) + rest == "$(" + (name + (")" + rest))
  {
  }

  lemma SumText(name: string, op: char, tail: string, rest: string)
    ensures (PrintOperand(name) + [op] + tail) + rest == "$(" + (name + (")" + ([op] + (tail + rest))))
  {
  }

  lemma LastPieces(name: string, close: string, text: string)
    requires IsName(name) && '$' !in name && (close == "" || close == ")") && IsWord(text)
    ensures Pieces(PrintOperand(name) + (close + text)) == [""] + ([name] + [text])
  {
    OperandText(name, close + text);
    assert ")" + (close + text) == (")" + close) + text;
    NameCut("$(", name, ")" + close, text);
    WordAlone(text);
  }

  lemma NextPieces(name: string, op: char, tail: string, rest: string, pieces: seq<string>)
    requires IsName(name) && '$' !in name && IsOperator(op)
    requires tail + rest != "" && IsSeparator((tail + rest)[0]) && Pieces(tail + rest) == [""] + pieces
    ensures Pieces((PrintOperand(name) + [op] + tail) + rest) == [""] + ([name, [op]] + pieces)
  {
    SumText(name, op, tail, rest);
    OperatorCut(op, tail + rest);
    NameCut("$(", name, ")", [op] + (tail + rest));
    assert Pieces([op] + (tail + rest)) == [[op]] + pieces;
    assert [name] + ([[op]] + pieces) == [name, [op]] + pieces;
  }

  /** A printed sum falls apart into its operands and operators; a closing bracket after it makes no difference. */
  lemma {:induction false} SumPieces(operands: seq<string>, operators: seq<char>, close: string, text: string)
    requires IsSum(operands, operators) && DollarFree(operands) && (close == "" || close == ")") && IsWord(text)
    ensures Pieces(PrintSum(operands, operators) + (close + text)) == [""] + (Interleave(operands, operators) + [text])
  {
    if |operands| == 1 {
      LastPieces(operands[0], close, text);
    } else {
      var names, ops := operands[1..], operators[1..];
      IsSumTail(operands, operators);
      SumPieces(names, ops, close, text);
      SumStart(names, ops, close + text);
      NextPieces(operands[0], operators[0], PrintSum(names, ops), close + text, Interleave(names, ops) + [text]);
      assert [operands[0], [operators[0]]] + (Interleave(names, ops) + [text]) ==
          Interleave(operands, operators) + [text];
    }
  }

  /** What stands behind the operands: the comparison, or nothing. */
  function ModeText(e: Expr): string {
    if e.comparison.Some? then PrintComparison(e.comparison.value) else ""
  }

  lemma ModeTextIsWord(e: Expr)
    requires WellFormed(e)
    ensures IsWord(ModeText(e))
  {
  }

  /** A printed expression is its sum, perhaps in brackets, and its comparison. */
  lemma PrintedAround(e: Expr, bracketed: bool) returns (before: string, close: string)
    requires WellFormed(e)
    ensures Print(e, bracketed) == before + (PrintSum(e.operands, e.operators) + (close + ModeText(e)))
    ensures (before == "" && close == "") || (before == "(" && close == ")")
  {
    var sum := PrintSum(e.operands, e.operators);
    if e.comparison.Some? && (|e.operands| > 1 || bracketed) {
      before, close := "(", ")";
      BracketedText(sum, ModeText(e));
    } else {
      before, close := "", "";
      Unwrapped(sum, ModeText(e));
    }
  }

  lemma Unwrapped(sum: string, text: string)
    ensures "" + (sum + ("" + text)) == sum + text && sum + "" == sum
  {
  }

  lemma ExprPieces(e: Expr, bracketed: bool)
    requires WellFormed(e) && DollarFree(e.operands)
    ensures Pieces(Print(e, bracketed)) == [""] + (Interleave(e.operands, e.operators) + [ModeText(e)])
  {
    var before, close := PrintedAround(e, bracketed);
    ModeTextIsWord(e);
    SumPieces(e.operands, e.operators, close, ModeText(e));
    SumStart(e.operands, e.operators, close + ModeText(e));
    BracketFirst(before, PrintSum(e.operands, e.operators) + (close + ModeText(e)));
  }

  // ----- dealing the pieces out -----

  datatype Parsed = Parsed(operands: seq<string>, operators: seq<string>, mode: string)

  function Evens<T>(s: seq<T>): (r: seq<T>)
    ensures |r| == (|s| + 1) / 2 && forall k :: 0 <= k < |r| ==> r[k] == s[2 * k]
  {
    seq((|s| + 1) / 2, k requires 0 <= k < (|s| + 1) / 2 => s[2 * k])
  }

  function Odds<T>(s: seq<T>): (r: seq<T>)
    ensures |r| == |s| / 2 && forall k :: 0 <= k < |r| ==> r[k] == s[2 * k + 1]
  {
    seq(|s| / 2, k requires 0 <= k < |s| / 2 => s[2 * k + 1])
  }

  /** The next piece goes to one of the two hands. */
  lemma DealNext<T>(s: seq<T>, i: nat)
    requires i < |s|
    ensures Evens(s[..i + 1]) == if i % 2 == 0 then Evens(s[..i]) + [s[i]] else Evens(s[..i])
    ensures Odds(s[..i + 1]) == if i % 2 == 0 then Odds(s[..i]) else Odds(s[..i]) + [s[i]]
  {
  }

  predicate NeedCompute(val: string) {
    exists i, j :: 0 <= i < |val| && j == i + 1 < |val| && val[i] == '$' && val[j] == '('
  }

  lemma NeedComputeSplits(val: string)
    requires NeedCompute(val)
    ensures |Pieces(val)| > 1
  {
    OnePieceIff(val);
  }

  /** What the source calls items[1 : count-1], dealt out alternately, and the last item. */
  function ParsedOf(val: string): Parsed
    requires |Pieces(val)| > 1
  {
    var items := Pieces(val);
    var inner := items[1..|items| - 1];
    Parsed(Evens(inner), Odds(inner), items[|items| - 1])
  }

  /** The loop over the inner pieces. */
  method Deal<T>(inner: seq<T>) returns (evens: seq<T>, odds: seq<T>)
    ensures evens == Evens(inner) && odds == Odds(inner)
  {
    evens, odds := [], [];
    for i := 0 to |inner|
      invariant evens == Evens(inner[..i]) && odds == Odds(inner[..i])
    {
      DealNext(inner, i);
      if i % 2 == 0 {
        evens := evens + [inner[i]];
      } else {
        odds := odds + [inner[i]];
      }
    }
    assert inner[..|inner|] == inner;
  }

  method Parse(expression: string, needCompute: bool)
    returns (operands: seq<string>, operators: seq<string>, mode: string)
    requires needCompute ==> NeedCompute(expression)
    ensures !needCompute ==> operands == [] && operators == [] && mode == ""
    ensures needCompute ==> |Pieces(expression)| > 1 && Parsed(operands, operators, mode) == ParsedOf(expression)
  {
    operands, operators, mode := [], [], "";
    if !needCompute {
      return;
    }
    NeedComputeSplits(expression);
    var items := Pieces(expression);
    var count := |items|;
    operands, operators := Deal(items[1..count - 1]);
    mode := items[count - 1];
  }

  // ----- parsing undoes printing -----

  function OperatorTexts(operators: seq<char>): (r: seq<string>)
    ensures |r| == |operators| && forall k :: 0 <= k < |r| ==> r[k] == [operators[k]]
  {
    seq(|operators|, k requires 0 <= k < |operators| => [operators[k]])
  }

  predicate AllOperators(ops: seq<string>) {
    forall i :: 0 <= i < |ops| ==> ops[i] == "+" || ops[i] == "-"
  }

  lemma DealCons<T>(a: T, b: T, s: seq<T>)
    ensures Evens([a, b] + s) == [a] + Evens(s) && Odds([a, b] + s) == [b] + Odds(s)
  {
  }

  /** Dealing undoes interleaving. */
  lemma {:induction false} DealInterleaved(operands: seq<string>, operators: seq<char>)
    requires operands != [] && |operators| == |operands| - 1
    ensures Evens(Interleave(operands, operators)) == operands
    ensures Odds(Interleave(operands, operators)) == OperatorTexts(operators)
  {
    if |operands| > 1 {
      DealInterleaved(operands[1..], operators[1..]);
      DealCons(operands[0], [operators[0]], Interleave(operands[1..], operators[1..]));
      assert operands == [operands[0]] + operands[1..];
      assert OperatorTexts(operators) == [[operators[0]]] + OperatorTexts(operators[1..]);
    }
  }

  /** What parse should return for an expression. */
  function Intended(e: Expr): Parsed {
    Parsed(e.operands, OperatorTexts(e.operators), ModeText(e))
  }

  lemma SumNeedsCompute(before: string, sum: string, after: string)
    requires |sum| >= 2 && sum[0] == '$' && sum[1] == '('
    ensures NeedCompute(before + (sum + after))
  {
    var i, text := |before|, before + (sum + after);
    assert text[i] == '$' && text[i + 1] == '(';
  }

  lemma PrintedNeedsCompute(e: Expr, bracketed: bool)
    requires WellFormed(e)
    ensures NeedCompute(Print(e, bracketed))
  {
    var before, close := PrintedAround(e, bracketed);
    SumNeedsCompute(before, PrintSum(e.operands, e.operators), close + ModeText(e));
  }

  /** Among the accepted texts, exactly the expressions need computing. */
  lemma NeedComputeIff(val: string)
    requires ExpressionValid(val)
    ensures NeedCompute(val) <==> Recognise(val).Some?
  {
    if Recognise(val).Some? {
      var b := RecogniseSound(val);
      PrintedNeedsCompute(Recognise(val).value, b);
    }
  }

  lemma Between<T>(first: T, inner: seq<T>, last: T)
    ensures var s := [first] + (inner + [last]);
            |s| == |inner| + 2 && s[1..|s| - 1] == inner && s[|s| - 1] == last
  {
  }

  lemma ParsePrinted(e: Expr, bracketed: bool)
    requires WellFormed(e) && DollarFree(e.operands)
    ensures |Pieces(Print(e, bracketed))| > 1 && ParsedOf(Print(e, bracketed)) == Intended(e)
  {
    ExprPieces(e, bracketed);
    DealInterleaved(e.operands, e.operators);
    Between("", Interleave(e.operands, e.operators), ModeText(e));
  }

  /** No parsed operand holds a separator. */
  lemma ParsedWords(val: string)
    requires |Pieces(val)| > 1
    ensures forall i :: 0 <= i < |ParsedOf(val).operands| ==> IsWord(ParsedOf(val).operands[i])
  {
    var items := Pieces(val);
    var inner := items[1..|items| - 1];
    forall i | 0 <= i < |Evens(inner)| ensures IsWord(Evens(inner)[i]) {
      assert Evens(inner)[i] == inner[2 * i] == items[2 * i + 1];
    }
  }

  /** Parsing undoes printing exactly when no operand contains a dollar sign. */
  lemma ParsePrintedIff(e: Expr, bracketed: bool)
    requires WellFormed(e)
    ensures var text := Print(e, bracketed);
            |Pieces(text)| > 1 && (ParsedOf(text) == Intended(e) <==> DollarFree(e.operands))
  {
    PrintedNeedsCompute(e, bracketed);
    NeedComputeSplits(Print(e, bracketed));
    ParsedWords(Print(e, bracketed));
    if DollarFree(e.operands) {
      ParsePrinted(e, bracketed);
    }
  }

  /** The last piece is what follows the last run of separators. */
  lemma {:induction false} LastPiece(s: string, r: string, w: string)
    requires IsRun(r) && IsWord(w)
    ensures var p := Pieces(s + (r + w)); |p| > 1 && p[|p| - 1] == w
  {
    if s == "" {
      RunFirst(r, w);
      WordAlone(w);
      assert s + (r + w) == r + w;
    } else {
      LastPiece(s[1..], r, w);
      assert (s + (r + w))[1..] == s[1..] + (r + w);
    }
  }

  lemma {:induction false} SumEnd(operands: seq<string>, operators: seq<char>) returns (front: string)
    requires operands != [] && |operators| == |operands| - 1
    ensures PrintSum(operands, operators) == front + ")"
  {
    if |operands| == 1 {
      front := "$(" + operands[0];
    } else {
      var rest := SumEnd(operands[1..], operators[1..]);
      front := PrintOperand(operands[0]) + [operators[0]] + rest;
      assert front + ")" == PrintOperand(operands[0]) + [operators[0]] + (rest + ")");
    }
  }

  lemma CloseText(before: string, front: string, close: string, text: string)
    ensures before + ((front + ")") + (close + text)) == (before + front) + ((")" + close) + text)
  {
  }

  /** Dollar signs or not, the mode is the comparison and there is an operator for every operand but the first. */
  lemma ParseIsSafe(e: Expr, bracketed: bool)
    requires WellFormed(e)
    ensures |Pieces(Print(e, bracketed))| > 1
    ensures var p := ParsedOf(Print(e, bracketed));
            p.mode == ModeText(e) && |p.operands| - 1 <= |p.operators| <= |p.operands|
  {
    var before, close := PrintedAround(e, bracketed);
    var front := SumEnd(e.operands, e.operators);
    CloseText(before, front, close, ModeText(e));
    ModeTextIsWord(e);
    LastPiece(before + front, ")" + close, ModeText(e));
  }

  function Misleading(a: string, op: char, b: string): string {
    a + (['$'] + ([op] + (['$'] + b)))
  }

  lemma MisleadingPieces(a: string, op: char, b: string)
    requires a != "" && IsWord(a) && b != "" && IsWord(b) && IsOperator(op)
    ensures Pieces(PrintOperand(Misleading(a, op, b))) == [""] + ([a] + ([[op]] + ([b] + [""])))
  {
    var end := b + (")" + "");
    var middle := [op] + (['$'] + end);
    WordThenRun(b, ")", "");
    OperatorCut(op, ['$'] + end);
    RunFirst(['$'], end);
    NameCut("$(", a, ['$'], middle);
    assert PrintOperand(Misleading(a, op, b)) == "$(" + (a + (['$'] + middle));
  }

  /** A name holding an operator between dollar signs is accepted as one operand and parsed as two. */
  lemma DollarMisread(a: string, op: char, b: string)
    requires IsName(a) && '$' !in a && IsName(b) && '$' !in b && IsOperator(op)
    ensures var one := Expr([Misleading(a, op, b)], [], None);
            && WellFormed(one) && Recognise(Print(one, false)) == Some(one)
            && |Pieces(Print(one, false))| > 1 && ParsedOf(Print(one, false)) == Intended(Expr([a, b], [op], None))
  {
    var one := Expr([Misleading(a, op, b)], [], None);
    assert Misleading(a, op, b)[0] == a[0];
    assert WellFormed(one);
    RecogniseBack(one, false);
    MisleadingPieces(a, op, b);
    DealFour(a, [op], b);
  }

  lemma DealFour(a: string, op: string, b: string)
    ensures var items := [""] + ([a] + ([op] + ([b] + [""])));
            var inner := items[1..|items| - 1];
            |items| > 1 && Evens(inner) == [a, b] && Odds(inner) == [op] && items[|items| - 1] == ""
  {
    var items := [""] + ([a] + ([op] + ([b] + [""])));
    assert items[1..|items| - 1] == [a, op, b];
  }
}
