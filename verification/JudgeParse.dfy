/** Reading a trigger function from its text (modules/judge/store/func.go:241-295), such as `all(#3)` or
    `lookup(#2,3)`. A slice or an index out of range is a panic of the source. */
module JudgeParse {
  import opened Options
  import opened Strings
  import opened Decimal
  import opened JudgeFunctions

  datatype ParseResult = Parsed(fn: Function) | Failed | Panicked

  /** The numbers of a comma-separated list, unless one of them is not a 64-bit number. */
  function IntsOf(parts: seq<string>): (r: Option<seq<int>>)
    ensures r.Some? ==> |r.value| == |parts|
  {
    if parts == [] then Some([])
    else
      var before, last := IntsOf(parts[..|parts| - 1]), ParseInt(parts[|parts| - 1], INT64_MAX);
      if before.None? || last.None? then None else Some(before.value + [last.value])
  }

  lemma {:induction false} IntsOfPrefix(parts: seq<string>, i: nat)
    requires i <= |parts| && IntsOf(parts[..i]).None?
    ensures IntsOf(parts).None?
  {
    if i < |parts| {
      assert parts[..|parts| - 1][..i] == parts[..i];
      IntsOfPrefix(parts[..|parts| - 1], i);
    } else {
      assert parts[..i] == parts;
    }
  }

  method Atois(s: string) returns (ret: Option<seq<int>>)
    ensures ret == IntsOf(Split(s, ','))
  {
    var a := Split(s, ',');
    var ints := [];
    for i := 0 to |a|
      invariant IntsOf(a[..i]) == Some(ints)
    {
      assert a[..i + 1][..i] == a[..i];
      var n := ParseInt(a[i], INT64_MAX);
      if n.None? {
        IntsOfPrefix(a, i + 1);
        return None;
      }
      ints := ints + [n.value];
    }
    assert a[..|a|] == a;
    return Some(ints);
  }

  /** The switch on the function's name; lookup alone reads a second argument. */
  function Named(name: string, args: seq<int>, operator: string, right: real): ParseResult
    requires args != []
  {
    if name == "max" then Parsed(Max(args[0], operator, right))
    else if name == "min" then Parsed(Min(args[0], operator, right))
    else if name == "all" then Parsed(All(args[0], operator, right))
    else if name == "sum" then Parsed(Sum(args[0], operator, right))
    else if name == "avg" then Parsed(Avg(args[0], operator, right))
    else if name == "diff" then Parsed(Diff(args[0], operator, right))
    else if name == "pdiff" then Parsed(PDiff(args[0], operator, right))
    else if name == "lookup" then
      if |args| < 2 then Panicked else Parsed(JudgeFunctions.Lookup(args[0], args[1], operator, right))
    else Failed
  }

  /** What becomes of the texts before and after the first `#`. */
  function ParsedCut(before: string, after: string, operator: string, right: real): ParseResult {
    if after == "" then Panicked
    else
      var args := IntsOf(Split(after[..|after| - 1], ','));
      if args.None? then Failed
      else if before == "" then Panicked
      else Named(before[..|before| - 1], args.value, operator, right)
  }

  /** What ParseFuncFromString makes of a text; the characters before `#` and at the end are not looked at. */
  function ParsedFunc(str: string, operator: string, right: real): ParseResult {
    match Cut(str, '#')
    case None =>
      if str == "" then Panicked
      else if IntsOf(Split(str[..|str| - 1], ',')).None? then Failed
      else Panicked
    case Some((before, after)) => ParsedCut(before, after, operator, right)
  }

  /** Panics on exactly the crashing texts, reads exactly the functions that a text stands for, refuses the rest. */
  method ParseFuncFromString(str: string, operator: string, right: real) returns (r: ParseResult)
    ensures r == ParsedFunc(str, operator, right)
    ensures r.Panicked? <==> Crashes(str)
    ensures forall fn :: r == Parsed(fn) <==> StandsFor(str, fn) && fn.operator == operator && fn.right == right
  {
    CrashesIff(str, operator, right);
    ReadsExactly(str, operator, right);
    var cut := Cut(str, '#');
    var tail := if cut.Some? then cut.value.1 else str;
    if tail == "" {
      return Panicked;
    }
    var args := Atois(tail[..|tail| - 1]);
    if args.None? {
      return Failed;
    }
    if cut.None? || cut.value.0 == "" {
      return Panicked;
    }
    var before := cut.value.0;
    r := Named(before[..|before| - 1], args.value, operator, right);
  }

  // ----- printing -----

  function NameOf(fn: Function): string {
    match fn
    case Max(_, _, _) => "max"
    case Min(_, _, _) => "min"
    case All(_, _, _) => "all"
    case Sum(_, _, _) => "sum"
    case Avg(_, _, _) => "avg"
    case Diff(_, _, _) => "diff"
    case PDiff(_, _, _) => "pdiff"
    case Lookup(_, _, _, _) => "lookup"
  }

  function ArgsOf(fn: Function): (args: seq<int>)
    ensures args != []
  {
    if fn.Lookup? then [fn.num, fn.limit] else [fn.limit]
  }

  function PrintArgs(args: seq<int>): (parts: seq<string>)
    ensures |parts| == |args| && forall i :: 0 <= i < |args| ==> parts[i] == PrintInt(args[i])
  {
    seq(|args|, i requires 0 <= i < |args| => PrintInt(args[i]))
  }

  function PrintFunc(fn: Function): string {
    (NameOf(fn) + "(") + "#" + (Join(PrintArgs(ArgsOf(fn)), ',') + ")")
  }

  predicate Fits(args: seq<int>) {
    forall i :: 0 <= i < |args| ==> -INT64_MAX - 1 <= args[i] <= INT64_MAX
  }

  lemma FitsLast(args: seq<int>)
    requires args != []
    ensures Fits(args) <==> Fits(args[..|args| - 1]) && -INT64_MAX - 1 <= args[|args| - 1] <= INT64_MAX
  {
  }

  lemma PrintArgsLast(args: seq<int>)
    requires args != []
    ensures PrintArgs(args)[..|args| - 1] == PrintArgs(args[..|args| - 1])
  {
  }

  lemma SplitLast<T>(s: seq<T>)
    requires s != []
    ensures s == s[..|s| - 1] + [s[|s| - 1]]
  {
  }

  lemma {:induction false} IntsBack(args: seq<int>)
    ensures IntsOf(PrintArgs(args)) == if Fits(args) then Some(args) else None
  {
    if args != [] {
      IntsBack(args[..|args| - 1]);
      IntBack(args[|args| - 1], INT64_MAX);
      PrintArgsLast(args);
      FitsLast(args);
      SplitLast(args);
    }
  }

  lemma NamedBack(fn: Function)
    ensures Named(NameOf(fn), ArgsOf(fn), fn.operator, fn.right) == Parsed(fn)
  {
  }

  lemma NamePlain(fn: Function)
    ensures Plain(NameOf(fn), '#')
  {
  }

  lemma ArgsText(args: seq<int>)
    requires args != []
    ensures IntsOf(Split(Join(PrintArgs(args), ','), ',')) == if Fits(args) then Some(args) else None
  {
    forall i | 0 <= i < |args| ensures Plain(PrintArgs(args)[i], ',') {
      PrintIntChars(args[i], ',');
    }
    SplitJoin(PrintArgs(args), ',');
    IntsBack(args);
  }

  /** A name, any character, `#`, numbers, and any character again: only the name and the numbers matter. */
  lemma NameAndArgs(name: string, open: char, args: seq<int>, close: char, operator: string, right: real)
    requires Plain(name, '#') && open != '#' && args != []
    ensures ParsedFunc((name + [open]) + ['#'] + (Join(PrintArgs(args), ',') + [close]), operator, right) ==
         if Fits(args) then Named(name, args, operator, right) else Failed
  {
    var before, text := name + [open], Join(PrintArgs(args), ',');
    CutPrefix(before, '#', text + [close]);
    assert (text + [close])[..|text + [close]| - 1] == text;
    assert before[..|before| - 1] == name;
    ArgsText(args);
  }

  /** A printed function is read back as itself exactly when its numbers fit in 64 bits; otherwise it is refused. */
  lemma ParseBack(fn: Function)
    ensures ParsedFunc(PrintFunc(fn), fn.operator, fn.right) == if Fits(ArgsOf(fn)) then Parsed(fn) else Failed
  {
    NamePlain(fn);
    NameAndArgs(NameOf(fn), '(', ArgsOf(fn), ')', fn.operator, fn.right);
    NamedBack(fn);
  }

  /** Such a text panics exactly when it is a lookup with one number. */
  lemma NameAndArgsPanicIff(name: string, open: char, args: seq<int>, close: char, operator: string, right: real)
    requires Plain(name, '#') && open != '#' && args != []
    ensures ParsedFunc((name + [open]) + ['#'] + (Join(PrintArgs(args), ',') + [close]), operator, right).Panicked? <==>
       Fits(args) && name == "lookup" && |args| == 1
  {
    NameAndArgs(name, open, args, close, operator, right);
    NamedPanicsIff(name, args, operator, right);
  }

  /** A lookup with one number only is not refused but panics. */
  lemma LookupNeedsTwo(n: int, operator: string, right: real)
    requires Fits([n])
    ensures ParsedFunc(("lookup" + "(") + "#" + (Join(PrintArgs([n]), ',') + ")"), operator, right) == Panicked
  {
    NameAndArgs("lookup", '(', [n], ')', operator, right);
  }

  // ----- every text -----

  /** A list of 64-bit numbers, separated by commas. */
  ghost predicate AllNumbers(text: string) {
    forall i :: 0 <= i < |Split(text, ',')| ==> ParseInt(Split(text, ',')[i], INT64_MAX).Some?
  }

  lemma {:induction false} IntsOfSome(parts: seq<string>)
    ensures IntsOf(parts).Some? <==> forall i :: 0 <= i < |parts| ==> ParseInt(parts[i], INT64_MAX).Some?
  {
    if parts != [] {
      var n := |parts| - 1;
      IntsOfSome(parts[..n]);
      assert forall i :: 0 <= i < n ==> parts[..n][i] == parts[i];
    }
  }

  predicate FirstHash(str: string, i: int) {
    0 <= i < |str| && str[i] == '#' && Plain(str[..i], '#')
  }

  /** What lies between the first `#` and the last character. */
  function Inside(str: string, i: int): string
    requires 0 <= i < |str| - 1
  {
    str[i + 1..|str| - 1]
  }

  /** With its first `#` at `i` a text crashes when nothing follows, or when the numbers are read and then there is
      no name before them, or the name wants a second number. */
  ghost predicate CrashesAt(str: string, i: int)
    requires 0 <= i < |str|
  {
    || i == |str| - 1
    || (AllNumbers(Inside(str, i)) && (i == 0 || (str[..i - 1] == "lookup" && Plain(Inside(str, i), ','))))
  }

  ghost predicate Crashes(str: string) {
    || str == ""
    || (Plain(str, '#') && AllNumbers(str[..|str| - 1]))
    || exists i :: FirstHash(str, i) && CrashesAt(str, i)
  }

  /** The text has the function's name, one character, `#`, and the function's numbers, perhaps with more behind
      them. */
  ghost predicate StandsFor(str: string, fn: Function) {
    exists i :: FirstHash(str, i) && StandsForAt(str, i, fn)
  }

  ghost predicate StandsForAt(str: string, i: int, fn: Function)
    requires 0 <= i < |str|
  {
    && 0 < i < |str| - 1 && str[..i - 1] == NameOf(fn)
    && IntsOf(Split(Inside(str, i), ',')).Some? && ArgsOf(fn) <= IntsOf(Split(Inside(str, i), ',')).value
  }

  lemma NoHashBefore(str: string, i: int, j: int)
    requires 0 <= i < j && FirstHash(str, j)
    ensures str[i] != '#'
  {
    assert str[..j][i] == str[i];
  }

  lemma FirstHashUnique(str: string, i: int, j: int)
    requires FirstHash(str, i) && FirstHash(str, j)
    ensures i == j
  {
    if i < j {
      NoHashBefore(str, i, j);
    } else if j < i {
      NoHashBefore(str, j, i);
    }
  }

  lemma HashParts<T>(s: seq<T>, i: int)
    requires 0 <= i < |s|
    ensures |s[i + 1..]| == |s| - 1 - i && |s[..i]| == i
    ensures i < |s| - 1 ==> s[i + 1..][..|s| - 2 - i] == s[i + 1..|s| - 1]
    ensures i > 0 ==> s[..i][..i - 1] == s[..i - 1]
  {
  }

  lemma CutAtHash(str: string, i: int)
    requires FirstHash(str, i)
    ensures Cut(str, '#') == Some((str[..i], str[i + 1..]))
  {
    assert str == str[..i] + ['#'] + str[i + 1..];
    CutPrefix(str[..i], '#', str[i + 1..]);
  }

  lemma HashExists(str: string) returns (i: int)
    requires !Plain(str, '#')
    ensures FirstHash(str, i)
  {
    i := |Cut(str, '#').value.0|;
    var p := Cut(str, '#').value;
    assert str[..i] == p.0 && str[i] == '#';
  }

  /** What is made of a text whose first `#` is at `i`. */
  function ParsedThere(str: string, i: int, operator: string, right: real): ParseResult
    requires 0 <= i < |str|
  {
    if i == |str| - 1 then Panicked
    else
      var args := IntsOf(Split(Inside(str, i), ','));
      if args.None? then Failed
      else if i == 0 then Panicked
      else Named(str[..i - 1], args.value, operator, right)
  }

  lemma CutIsThere(str: string, i: int, operator: string, right: real)
    requires 0 <= i < |str|
    ensures ParsedCut(str[..i], str[i + 1..], operator, right) == ParsedThere(str, i, operator, right)
  {
    HashParts(str, i);
  }

  lemma ParsedAt(str: string, i: int, operator: string, right: real)
    requires FirstHash(str, i)
    ensures ParsedFunc(str, operator, right) == ParsedThere(str, i, operator, right)
  {
    CutAtHash(str, i);
    CutIsThere(str, i, operator, right);
  }

  lemma NamedPanicsIff(name: string, args: seq<int>, operator: string, right: real)
    requires args != []
    ensures Named(name, args, operator, right).Panicked? <==> name == "lookup" && |args| == 1
  {
  }

  lemma CrashesAtIff(str: string, i: int, operator: string, right: real)
    requires FirstHash(str, i)
    ensures ParsedFunc(str, operator, right).Panicked? <==> CrashesAt(str, i)
  {
    ParsedAt(str, i, operator, right);
    if i < |str| - 1 {
      var args := IntsOf(Split(Inside(str, i), ','));
      IntsOfSome(Split(Inside(str, i), ','));
      if args.Some? && i > 0 {
        NamedPanicsIff(str[..i - 1], args.value, operator, right);
      }
    }
  }

  /** A text panics if and only if it is one of the crashing texts. */
  lemma CrashesIff(str: string, operator: string, right: real)
    ensures ParsedFunc(str, operator, right).Panicked? <==> Crashes(str)
  {
    if str != "" {
      if Plain(str, '#') {
        IntsOfSome(Split(str[..|str| - 1], ','));
        assert forall i :: !FirstHash(str, i);
      } else {
        var i := HashExists(str);
        CrashesAtIff(str, i, operator, right);
        forall j | FirstHash(str, j) ensures j == i {
          FirstHashUnique(str, i, j);
        }
      }
    }
  }

  lemma NamedIff(name: string, args: seq<int>, operator: string, right: real, fn: Function)
    requires args != []
    ensures Named(name, args, operator, right) == Parsed(fn) <==>
            name == NameOf(fn) && ArgsOf(fn) <= args && fn.operator == operator && fn.right == right
  {
    if |args| >= 2 {
      assert args[..2] == [args[0], args[1]];
    }
    assert args[..1] == [args[0]];
  }

  lemma ReadsAt(str: string, i: int, operator: string, right: real, fn: Function)
    requires FirstHash(str, i)
    ensures ParsedFunc(str, operator, right) == Parsed(fn) <==>
            StandsForAt(str, i, fn) && fn.operator == operator && fn.right == right
  {
    ParsedAt(str, i, operator, right);
    if 0 < i < |str| - 1 && IntsOf(Split(Inside(str, i), ',')).Some? {
      NamedIff(str[..i - 1], IntsOf(Split(Inside(str, i), ',')).value, operator, right, fn);
    }
  }

  /** A text is read as a function if and only if it stands for it. */
  lemma ReadsIff(str: string, operator: string, right: real, fn: Function)
    ensures ParsedFunc(str, operator, right) == Parsed(fn) <==>
            StandsFor(str, fn) && fn.operator == operator && fn.right == right
  {
    if Plain(str, '#') {
      assert forall i :: !FirstHash(str, i);
    } else {
      var i := HashExists(str);
      ReadsAt(str, i, operator, right, fn);
      forall j | FirstHash(str, j) ensures j == i {
        FirstHashUnique(str, i, j);
      }
    }
  }

  lemma ReadsExactly(str: string, operator: string, right: real)
    ensures forall fn :: ParsedFunc(str, operator, right) == Parsed(fn) <==>
              StandsFor(str, fn) && fn.operator == operator && fn.right == right
  {
    forall fn ensures ParsedFunc(str, operator, right) == Parsed(fn) <==>
                        StandsFor(str, fn) && fn.operator == operator && fn.right == right
    {
      ReadsIff(str, operator, right, fn);
    }
  }
}
