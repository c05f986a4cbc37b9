/** The trigger functions of the judge (modules/judge/store/func.go), computed over a window of history. */
module JudgeFunctions {
  import opened JudgeHistory

  datatype Function =
    | Max(limit: int, operator: string, right: real)
    | Min(limit: int, operator: string, right: real)
    | All(limit: int, operator: string, right: real)
    | Sum(limit: int, operator: string, right: real)
    | Avg(limit: int, operator: string, right: real)
    | Diff(limit: int, operator: string, right: real)
    | PDiff(limit: int, operator: string, right: real)
    | Lookup(num: int, limit: int, operator: string, right: real)

  function Abs(x: real): real {
    if x < 0.0 then -x else x
  }

  const EPSILON := 0.0001

  /** checkIsTriggered: equality has a tolerance, an unknown operator never triggers. */
  predicate Check(left: real, operator: string, right: real) {
    if operator == "=" || operator == "==" then Abs(left - right) < EPSILON
    else if operator == "!=" then Abs(left - right) > EPSILON
    else if operator == "<" then left < right
    else if operator == "<=" then left <= right
    else if operator == ">" then left > right
    else if operator == ">=" then left >= right
    else false
  }

  // ----- what each function means, over the window it reads -----

  /** diff and pdiff compare the newest point with `limit` older ones. */
  function Needed(fn: Function): int {
    if fn.Diff? || fn.PDiff? then fn.limit + 1 else fn.limit
  }

  ghost predicate IsMax(vs: seq<HistoryPoint>, m: real) {
    (exists i :: 0 <= i < |vs| && vs[i].value == m) && forall i :: 0 <= i < |vs| ==> vs[i].value <= m
  }

  ghost predicate IsMin(vs: seq<HistoryPoint>, m: real) {
    (exists i :: 0 <= i < |vs| && vs[i].value == m) && forall i :: 0 <= i < |vs| ==> m <= vs[i].value
  }

  function Total(vs: seq<HistoryPoint>): real {
    if vs == [] then 0.0 else Total(vs[..|vs| - 1]) + vs[|vs| - 1].value
  }

  function Count(vs: seq<HistoryPoint>, operator: string, right: real): nat {
    if vs == [] then 0
    else Count(vs[..|vs| - 1], operator, right) + if Check(vs[|vs| - 1].value, operator, right) then 1 else 0
  }

  /** The change against older point `i`; in percent of it, which a zero does not have, for pdiff. */
  function Change(fn: Function, vs: seq<HistoryPoint>, i: nat): real
    requires i < |vs| && HasChange(fn, vs, i)
  {
    if fn.PDiff? then (vs[0].value - vs[i].value) / vs[i].value * 100.0 else vs[0].value - vs[i].value
  }

  predicate HasChange(fn: Function, vs: seq<HistoryPoint>, i: nat)
    requires i < |vs|
  {
    fn.PDiff? ==> vs[i].value != 0.0
  }

  predicate ChangeTriggers(fn: Function, vs: seq<HistoryPoint>, i: nat)
    requires i < |vs|
  {
    HasChange(fn, vs, i) && Check(Change(fn, vs, i), fn.operator, fn.right)
  }

  /** The last change among points 1 to `n-1`, zero when there is none. */
  function LastChange(fn: Function, vs: seq<HistoryPoint>, n: nat): real
    requires n <= |vs|
  {
    if n <= 1 then 0.0
    else if HasChange(fn, vs, n - 1) then Change(fn, vs, n - 1)
    else LastChange(fn, vs, n - 1)
  }

  ghost predicate Triggers(fn: Function, vs: seq<HistoryPoint>) {
    match fn
    case Max(_, op, r) => exists m :: IsMax(vs, m) && Check(m, op, r)
    case Min(_, op, r) => exists m :: IsMin(vs, m) && Check(m, op, r)
    case All(_, op, r) => forall i :: 0 <= i < |vs| ==> Check(vs[i].value, op, r)
    case Sum(_, op, r) => Check(Total(vs), op, r)
    case Avg(_, op, r) => vs != [] && Check(Total(vs) / |vs| as real, op, r)
    case Lookup(num, _, op, r) => 1 <= num <= Count(vs, op, r)
    case _ => exists i :: 1 <= i < |vs| && ChangeTriggers(fn, vs, i)
  }

  /** The value reported with the event. */
  ghost predicate IsLeft(fn: Function, vs: seq<HistoryPoint>, left: real)
    requires vs != []
  {
    match fn
    case Max(_, _, _) => IsMax(vs, left)
    case Min(_, _, _) => IsMin(vs, left)
    case All(_, _, _) => left == vs[0].value
    case Sum(_, _, _) => left == Total(vs)
    case Avg(_, _, _) => left == Total(vs) / |vs| as real
    case Lookup(_, _, _, _) => left == vs[0].value
    case _ => if !Triggers(fn, vs) then left == LastChange(fn, vs, |vs|)
              else
                exists i :: 1 <= i < |vs| && ChangeTriggers(fn, vs, i) && left == Change(fn, vs, i)
                            && forall j :: 1 <= j < i ==> !ChangeTriggers(fn, vs, j)
  }

  // ----- the loops -----

  method MaxValue(vs: seq<HistoryPoint>) returns (max: real)
    requires vs != []
    ensures IsMax(vs, max)
  {
    max := vs[0].value;
    for i := 1 to |vs|
      invariant IsMax(vs[..i], max)
    {
      assert vs[..i + 1][i] == vs[i];
      ghost var k :| 0 <= k < i && vs[..i][k].value == max;
      assert vs[..i + 1][k].value == max;
      if max < vs[i].value {
        max := vs[i].value;
      }
    }
    assert vs[..|vs|] == vs;
  }

  method MinValue(vs: seq<HistoryPoint>) returns (min: real)
    requires vs != []
    ensures IsMin(vs, min)
  {
    min := vs[0].value;
    for i := 1 to |vs|
      invariant IsMin(vs[..i], min)
    {
      assert vs[..i + 1][i] == vs[i];
      ghost var k :| 0 <= k < i && vs[..i][k].value == min;
      assert vs[..i + 1][k].value == min;
      if min > vs[i].value {
        min := vs[i].value;
      }
    }
    assert vs[..|vs|] == vs;
  }

  method SumValues(vs: seq<HistoryPoint>) returns (sum: real)
    ensures sum == Total(vs)
  {
    sum := 0.0;
    for i := 0 to |vs|
      invariant sum == Total(vs[..i])
    {
      assert vs[..i + 1][..i] == vs[..i];
      sum := sum + vs[i].value;
    }
    assert vs[..|vs|] == vs;
  }

  method CheckAll(vs: seq<HistoryPoint>, operator: string, right: real) returns (isTriggered: bool)
    ensures isTriggered <==> forall i :: 0 <= i < |vs| ==> Check(vs[i].value, operator, right)
  {
    isTriggered := true;
    for i := 0 to |vs|
      invariant isTriggered && forall k :: 0 <= k < i ==> Check(vs[k].value, operator, right)
    {
      isTriggered := Check(vs[i].value, operator, right);
      if !isTriggered {
        break;
      }
    }
  }

  lemma {:induction false} CountPrefix(vs: seq<HistoryPoint>, operator: string, right: real, i: nat)
    requires i <= |vs|
    ensures Count(vs[..i], operator, right) <= Count(vs, operator, right)
  {
    if i < |vs| {
      assert vs[..|vs| - 1][..i] == vs[..i];
      CountPrefix(vs[..|vs| - 1], operator, right, i);
    } else {
      assert vs[..i] == vs;
    }
  }

  method LookupHits(vs: seq<HistoryPoint>, num: int, operator: string, right: real) returns (isTriggered: bool)
    ensures isTriggered <==> 1 <= num <= Count(vs, operator, right)
  {
    var n := 0;
    for i := 0 to |vs|
      invariant n == Count(vs[..i], operator, right)
      invariant num < 1 || n < num
    {
      assert vs[..i + 1][..i] == vs[..i];
      if Check(vs[i].value, operator, right) {
        n := n + 1;
        if n == num {
          CountPrefix(vs, operator, right, i + 1);
          return true;
        }
      }
    }
    assert vs[..|vs|] == vs;
    return false;
  }

  method FirstChange(fn: Function, vs: seq<HistoryPoint>) returns (leftValue: real, isTriggered: bool)
    requires vs != [] && (fn.Diff? || fn.PDiff?)
    ensures isTriggered <==> Triggers(fn, vs)
    ensures IsLeft(fn, vs, leftValue)
  {
    leftValue, isTriggered := 0.0, false;
    for i := 1 to |vs|
      invariant leftValue == LastChange(fn, vs, i)
      invariant !isTriggered && forall j :: 1 <= j < i ==> !ChangeTriggers(fn, vs, j)
    {
      if fn.PDiff? && vs[i].value == 0.0 {
        continue;
      }
      leftValue := if fn.PDiff? then (vs[0].value - vs[i].value) / vs[i].value * 100.0 else vs[0].value - vs[i].value;
      isTriggered := Check(leftValue, fn.operator, fn.right);
      if isTriggered {
        assert ChangeTriggers(fn, vs, i) && leftValue == Change(fn, vs, i);
        break;
      }
    }
  }

  method Evaluate(fn: Function, vs: seq<HistoryPoint>) returns (leftValue: real, isTriggered: bool)
    requires |vs| == Needed(fn) >= 1
    ensures isTriggered <==> Triggers(fn, vs)
    ensures IsLeft(fn, vs, leftValue)
  {
    if fn.Max? {
      leftValue := MaxValue(vs);
      isTriggered := Check(leftValue, fn.operator, fn.right);
    } else if fn.Min? {
      leftValue := MinValue(vs);
      isTriggered := Check(leftValue, fn.operator, fn.right);
    } else if fn.All? {
      isTriggered := CheckAll(vs, fn.operator, fn.right);
      leftValue := vs[0].value;
    } else if fn.Sum? || fn.Avg? {
      leftValue := SumValues(vs);
      if fn.Avg? {
        leftValue := leftValue / fn.limit as real;
      }
      isTriggered := Check(leftValue, fn.operator, fn.right);
    } else if fn.Lookup? {
      isTriggered := LookupHits(vs, fn.num, fn.operator, fn.right);
      leftValue := vs[0].value;
    } else {
      leftValue, isTriggered := FirstChange(fn, vs);
    }
  }

  /** Every Compute method of the source: too little history gives the zero values. */
  method Compute(fn: Function, L: SafeLinkedList)
    returns (vs: seq<HistoryPoint>, leftValue: real, isTriggered: bool, isEnough: bool)
    requires L.Valid() && Readable(L.L)
    ensures vs == Window(L.L, Needed(fn)) && isEnough == IsEnough(L.L, Needed(fn))
    ensures isEnough ==> |vs| == Needed(fn) >= 1
    ensures !isEnough ==> !isTriggered && leftValue == 0.0
    ensures isEnough ==> (isTriggered <==> Triggers(fn, vs)) && IsLeft(fn, vs, leftValue)
  {
    leftValue, isTriggered := 0.0, false;
    vs, isEnough := L.HistoryData(Needed(fn));
    WindowProperties(L.L, Needed(fn));
    if isEnough {
      leftValue, isTriggered := Evaluate(fn, vs);
    }
  }

  // ----- how the functions relate -----

  /** The count is the number of points of the window that satisfy the operator. */
  lemma {:induction false} CountIsCardinality(vs: seq<HistoryPoint>, operator: string, right: real)
    ensures Count(vs, operator, right) == |set i | 0 <= i < |vs| && Check(vs[i].value, operator, right)|
  {
    var hits := set i | 0 <= i < |vs| && Check(vs[i].value, operator, right);
    if vs != [] {
      var init, last := vs[..|vs| - 1], |vs| - 1;
      CountIsCardinality(init, operator, right);
      var before := set i | 0 <= i < |init| && Check(init[i].value, operator, right);
      assert hits == before + if Check(vs[last].value, operator, right) then {last} else {};
    }
  }

  lemma {:induction false} CountExtremes(vs: seq<HistoryPoint>, operator: string, right: real)
    ensures Count(vs, operator, right) <= |vs|
    ensures Count(vs, operator, right) == |vs| <==> forall i :: 0 <= i < |vs| ==> Check(vs[i].value, operator, right)
    ensures Count(vs, operator, right) >= 1 <==> exists i :: 0 <= i < |vs| && Check(vs[i].value, operator, right)
  {
    if vs != [] {
      var init := vs[..|vs| - 1];
      CountExtremes(init, operator, right);
      assert forall i :: 0 <= i < |init| ==> init[i] == vs[i];
      if i :| 0 <= i < |vs| && Check(vs[i].value, operator, right) {
        assert i < |init| ==> Check(init[i].value, operator, right);
      }
    }
  }

  /** all(#k) is lookup(#k,k). */
  lemma AllIsFullLookup(vs: seq<HistoryPoint>, operator: string, right: real)
    requires vs != []
    ensures Triggers(All(|vs|, operator, right), vs) <==> Triggers(Lookup(|vs|, |vs|, operator, right), vs)
  {
    CountExtremes(vs, operator, right);
  }

  lemma {:induction false} MaxExists(vs: seq<HistoryPoint>) returns (m: real)
    requires vs != []
    ensures IsMax(vs, m)
  {
    m := vs[|vs| - 1].value;
    if |vs| > 1 {
      var init := vs[..|vs| - 1];
      var m' := MaxExists(init);
      if m < m' {
        m := m';
        var k :| 0 <= k < |init| && init[k].value == m;
        assert vs[k].value == m;
      }
    }
  }

  lemma {:induction false} MinExists(vs: seq<HistoryPoint>) returns (m: real)
    requires vs != []
    ensures IsMin(vs, m)
  {
    m := vs[|vs| - 1].value;
    if |vs| > 1 {
      var init := vs[..|vs| - 1];
      var m' := MinExists(init);
      if m > m' {
        m := m';
        var k :| 0 <= k < |init| && init[k].value == m;
        assert vs[k].value == m;
      }
    }
  }

  /** max(#k) above a threshold is lookup(#1,k) above it; max(#k) below one is all(#k) below it. */
  lemma MaxAsLookupOrAll(vs: seq<HistoryPoint>, operator: string, right: real)
    requires vs != []
    ensures operator == ">" || operator == ">=" ==>
              (Triggers(Max(|vs|, operator, right), vs) <==> Triggers(Lookup(1, |vs|, operator, right), vs))
    ensures operator == "<" || operator == "<=" ==>
              (Triggers(Max(|vs|, operator, right), vs) <==> Triggers(All(|vs|, operator, right), vs))
  {
    CountExtremes(vs, operator, right);
    var m := MaxExists(vs);
  }

  /** min(#k) above a threshold is all(#k) above it; min(#k) below one is lookup(#1,k) below it. */
  lemma MinAsAllOrLookup(vs: seq<HistoryPoint>, operator: string, right: real)
    requires vs != []
    ensures operator == ">" || operator == ">=" ==>
              (Triggers(Min(|vs|, operator, right), vs) <==> Triggers(All(|vs|, operator, right), vs))
    ensures operator == "<" || operator == "<=" ==>
              (Triggers(Min(|vs|, operator, right), vs) <==> Triggers(Lookup(1, |vs|, operator, right), vs))
  {
    CountExtremes(vs, operator, right);
    var m := MinExists(vs);
  }

  /** avg(#k) against a threshold is sum(#k) against k times the threshold, for the order operators. */
  lemma AvgIsScaledSum(vs: seq<HistoryPoint>, operator: string, right: real)
    requires vs != [] && operator in ["<", "<=", ">", ">="]
    ensures Triggers(Avg(|vs|, operator, right), vs) <==> Triggers(Sum(|vs|, operator, right * |vs| as real), vs)
  {
    var k, a := |vs| as real, Total(vs) / |vs| as real;
    assert a * k == Total(vs);
    if a < right {
      assert (right - a) * k > 0.0;
    } else if a > right {
      assert (a - right) * k > 0.0;
    }
  }

  /** The sum of a window is the sum of its parts, and that of one point its value. */
  lemma {:induction false} TotalSplits(a: seq<HistoryPoint>, b: seq<HistoryPoint>)
    ensures Total(a + b) == Total(a) + Total(b)
    ensures |b| == 1 ==> Total(b) == b[0].value
  {
    if b == [] {
      assert a + b == a;
    } else {
      assert (a + b)[..|a + b| - 1] == a + b[..|b| - 1];
      TotalSplits(a, b[..|b| - 1]);
    }
  }

  /** diff(#k) reads k + 1 points: it triggers when the newest differs as asked from one of the k older ones, and
      reports the difference to the first such one, or else to the oldest. */
  lemma DiffIff(k: int, operator: string, right: real, vs: seq<HistoryPoint>, left: real)
    requires k >= 1 && |vs| == Needed(Diff(k, operator, right))
    ensures |vs| == k + 1
    ensures Triggers(Diff(k, operator, right), vs) <==>
            exists i :: 1 <= i <= k && Check(vs[0].value - vs[i].value, operator, right)
    ensures IsLeft(Diff(k, operator, right), vs, left) <==>
            exists i :: 1 <= i <= k && left == vs[0].value - vs[i].value
              && (i == k || Check(left, operator, right))
              && forall j :: 1 <= j < i ==> !Check(vs[0].value - vs[j].value, operator, right)
  {
    var fn := Diff(k, operator, right);
    forall i | 1 <= i <= k ensures ChangeTriggers(fn, vs, i) <==> Check(vs[0].value - vs[i].value, operator, right) {
    }
  }

  /** A percentage of a value that is not zero. */
  lemma Percentage(a: real, b: real, c: real)
    requires b != 0.0
    ensures c == a / b * 100.0 <==> c * b == a * 100.0
  {
    QuotientTimes(a, b);
    assert a / b * 100.0 * b == a / b * b * 100.0;
    if c * b == a * 100.0 {
      assert (c - a / b * 100.0) * b == 0.0;
    }
  }

  /** Older point `i` is not zero, and `c` is the change against it in percent of it. */
  ghost predicate IsPercent(vs: seq<HistoryPoint>, i: int, c: real)
    requires vs != []
  {
    1 <= i < |vs| && vs[i].value != 0.0 && c * vs[i].value == (vs[0].value - vs[i].value) * 100.0
  }

  lemma ChangeIsPercent(k: int, operator: string, right: real, vs: seq<HistoryPoint>, i: nat, c: real)
    requires 1 <= i < |vs|
    ensures var fn := PDiff(k, operator, right);
            IsPercent(vs, i, c) <==> HasChange(fn, vs, i) && c == Change(fn, vs, i)
  {
    if vs[i].value != 0.0 {
      Percentage(vs[0].value - vs[i].value, vs[i].value, c);
    }
  }

  /** pdiff(#k) reads k + 1 points: it triggers when the newest differs as asked, in percent, from one of the k older
      ones that are not zero. */
  lemma PDiffIff(k: int, operator: string, right: real, vs: seq<HistoryPoint>)
    requires k >= 1 && |vs| == Needed(PDiff(k, operator, right))
    ensures |vs| == k + 1
    ensures Triggers(PDiff(k, operator, right), vs) <==>
            exists i, c :: IsPercent(vs, i, c) && Check(c, operator, right)
  {
    var fn := PDiff(k, operator, right);
    if Triggers(fn, vs) {
      var i :| 1 <= i < |vs| && ChangeTriggers(fn, vs, i);
      ChangeIsPercent(k, operator, right, vs, i, Change(fn, vs, i));
    }
    if i, c :| IsPercent(vs, i, c) && Check(c, operator, right) {
      ChangeIsPercent(k, operator, right, vs, i, c);
      assert ChangeTriggers(fn, vs, i);
    }
  }

  lemma {:induction false} LastChangeIs(fn: Function, vs: seq<HistoryPoint>, n: nat)
    requires n <= |vs|
    ensures (LastChange(fn, vs, n) == 0.0 && forall i :: 1 <= i < n ==> !HasChange(fn, vs, i))
            || exists i :: 1 <= i < n && HasChange(fn, vs, i) && LastChange(fn, vs, n) == Change(fn, vs, i)
                 && forall j :: i < j < n ==> !HasChange(fn, vs, j)
  {
    if n > 1 && !HasChange(fn, vs, n - 1) {
      LastChangeIs(fn, vs, n - 1);
    }
  }

  /** pdiff(#k) reports the percentage of the first point that triggers; when none does, that of the oldest point that
      is not zero, or zero. */
  lemma PDiffReports(k: int, operator: string, right: real, vs: seq<HistoryPoint>, left: real) returns (i: int)
    requires k >= 1 && |vs| == k + 1 && IsLeft(PDiff(k, operator, right), vs, left)
    ensures if Triggers(PDiff(k, operator, right), vs) then
              && IsPercent(vs, i, left) && Check(left, operator, right)
              && forall j, c :: j < i && IsPercent(vs, j, c) ==> !Check(c, operator, right)
            else
              && (IsPercent(vs, i, left) || (i == 0 && left == 0.0))
              && forall j, c :: j > i ==> !IsPercent(vs, j, c)
  {
    var fn := PDiff(k, operator, right);
    i := 0;
    if Triggers(fn, vs) {
      i :| 1 <= i < |vs| && ChangeTriggers(fn, vs, i) && left == Change(fn, vs, i)
           && forall j :: 1 <= j < i ==> !ChangeTriggers(fn, vs, j);
      ChangeIsPercent(k, operator, right, vs, i, left);
      forall j, c | j < i && IsPercent(vs, j, c) ensures !Check(c, operator, right) {
        assert !ChangeTriggers(fn, vs, j);
        ChangeIsPercent(k, operator, right, vs, j, c);
      }
    } else {
      LastChangeIs(fn, vs, |vs|);
      if n :| 1 <= n < |vs| && HasChange(fn, vs, n) && left == Change(fn, vs, n)
              && forall j :: n < j < |vs| ==> !HasChange(fn, vs, j)
      {
        i := n;
        ChangeIsPercent(k, operator, right, vs, n, left);
      }
      forall j, c | j > i ensures !IsPercent(vs, j, c) {
        if 1 <= j < |vs| {
          assert !HasChange(fn, vs, j);
        }
      }
    }
  }

  /** All other functions read as many points as their limit says. */
  lemma NeededIsLimit(fn: Function)
    requires !fn.Diff? && !fn.PDiff?
    ensures Needed(fn) == fn.limit
  {
  }

  /** The operators, by the difference of the two sides; equality is within a ten-thousandth. */
  lemma OperatorsCompare(left: real, right: real)
    ensures Check(left, ">", right) <==> left - right > 0.0
    ensures Check(left, "<", right) <==> Check(right, ">", left)
    ensures Check(left, ">=", right) <==> !Check(left, "<", right)
    ensures Check(left, "<=", right) <==> !Check(left, ">", right)
    ensures Check(left, "==", right) <==> Check(left, "=", right)
    ensures Check(left, "==", right) <==> -1.0 < (left - right) * 10000.0 < 1.0
    ensures Check(left, "!=", right) <==> (left - right) * 10000.0 < -1.0 || 1.0 < (left - right) * 10000.0
  {
  }

  /** "==" and "!=" exclude each other, and neither triggers exactly at the tolerance. */
  lemma EqualityTolerance(left: real, right: real)
    ensures Check(left, "==", right) ==> !Check(left, "!=", right)
    ensures !Check(left, "==", right) && !Check(left, "!=", right) <==> Abs(left - right) == EPSILON
  {
  }
}
