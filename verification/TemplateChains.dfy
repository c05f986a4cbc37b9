/** Template inheritance in hbs: the ancestor walk (modules/hbs/cache/strategies.go) and the pruning of
    the chains of one host (modules/hbs/rpc/hbs.go). */
module TemplateChains {
  import opened Seqs

  datatype Template = Template(id: int, parentId: int)

  type Templates = map<int, Template>

  const MAX_DEPTH := 10

  predicate Known(tpls: Templates, tid: int) {
    tid > 0 && tid in tpls
  }

  // ----- chains -----

  /** At most `n` steps up from `tid`, youngest first. */
  function Climb(tpls: Templates, tid: int, n: nat): (c: seq<int>)
    ensures |c| <= n
    decreases n
  {
    if n == 0 || !Known(tpls, tid) then [] else [tid] + Climb(tpls, tpls[tid].parentId, n - 1)
  }

  /** From a template with no known parent down to `tid`, each the parent of the next. */
  ghost predicate RootPath(tpls: Templates, path: seq<int>, tid: int) {
    && path != [] && path[|path| - 1] == tid
    && (forall i :: 0 <= i < |path| ==> Known(tpls, path[i]))
    && !Known(tpls, tpls[path[0]].parentId)
    && (forall i, j :: 0 <= i && j == i + 1 && j < |path| ==> tpls[path[j]].parentId == path[i])
  }

  /** The chain of a template: empty when the template is unknown or the walk is too long. */
  function Chain(tpls: Templates, tid: int): seq<int> {
    var c := Climb(tpls, tid, MAX_DEPTH);
    if |c| == MAX_DEPTH then [] else Reversed(c)
  }

  lemma {:induction false} ClimbIsPath(tpls: Templates, tid: int, n: nat)
    requires 0 < |Climb(tpls, tid, n)| < n
    ensures RootPath(tpls, Reversed(Climb(tpls, tid, n)), tid)
    decreases n
  {
    var up, c := tpls[tid].parentId, Climb(tpls, tid, n);
    var path := Reversed(c);
    if Known(tpls, up) && n > 1 {
      ClimbIsPath(tpls, up, n - 1);
      assert path == Reversed(Climb(tpls, up, n - 1)) + [tid];
    }
  }

  lemma PathInit(tpls: Templates, path: seq<int>, k: nat)
    requires k < |path| && RootPath(tpls, path, path[|path| - 1])
    ensures RootPath(tpls, path[..k + 1], path[k])
  {
  }

  lemma PathParent(tpls: Templates, path: seq<int>, tid: int)
    requires RootPath(tpls, path, tid)
    ensures |path| > 1 <==> Known(tpls, tpls[tid].parentId)
  {
    if |path| > 1 {
      var k := |path| - 2;
      assert tpls[path[k + 1]].parentId == path[k];
    }
  }

  /** There is one path down to a template. */
  lemma {:induction false} PathUnique(tpls: Templates, a: seq<int>, b: seq<int>, tid: int)
    requires RootPath(tpls, a, tid) && RootPath(tpls, b, tid)
    ensures a == b
    decreases |a|
  {
    PathParent(tpls, a, tid);
    PathParent(tpls, b, tid);
    if |a| > 1 && |b| > 1 {
      var m, n := |a| - 2, |b| - 2;
      assert tpls[a[m + 1]].parentId == a[m] && tpls[b[n + 1]].parentId == b[n];
      PathInit(tpls, a, m);
      PathInit(tpls, b, n);
      PathUnique(tpls, a[..m + 1], b[..n + 1], a[m]);
      assert a == a[..m + 1] + [tid] && b == b[..n + 1] + [tid];
    }
  }

  /** A path never meets a template twice. */
  lemma PathDistinct(tpls: Templates, path: seq<int>)
    requires path != [] && RootPath(tpls, path, path[|path| - 1])
    ensures forall i, j :: 0 <= i < j < |path| ==> path[i] != path[j]
  {
    forall i, j | 0 <= i < j < |path| ensures path[i] != path[j] {
      if path[i] == path[j] {
        PathInit(tpls, path, i);
        PathInit(tpls, path, j);
        PathUnique(tpls, path[..i + 1], path[..j + 1], path[i]);
      }
    }
  }

  /** A path shorter than the bound is what the walk finds. */
  lemma {:induction false} PathIsClimb(tpls: Templates, path: seq<int>, tid: int, n: nat)
    requires RootPath(tpls, path, tid) && |path| < n
    ensures Climb(tpls, tid, n) == Reversed(path)
  {
    if |path| > 1 {
      var k := |path| - 2;
      assert tpls[path[k + 1]].parentId == path[k];
      PathInit(tpls, path, k);
      PathIsClimb(tpls, path[..k + 1], path[k], n - 1);
      assert Reversed(path) == [tid] + Reversed(path[..k + 1]);
    } else {
      assert Climb(tpls, tid, n) == [tid] + Climb(tpls, tpls[tid].parentId, n - 1);
    }
  }

  /** The chains are exactly the root paths of fewer than ten templates. */
  lemma ChainIff(tpls: Templates, tid: int, path: seq<int>)
    ensures path != [] ==> (Chain(tpls, tid) == path <==> RootPath(tpls, path, tid) && |path| < MAX_DEPTH)
    ensures Chain(tpls, tid) == [] <==> !Known(tpls, tid) || |Climb(tpls, tid, MAX_DEPTH)| == MAX_DEPTH
  {
    var c := Climb(tpls, tid, MAX_DEPTH);
    if 0 < |c| < MAX_DEPTH {
      ClimbIsPath(tpls, tid, MAX_DEPTH);
    }
    if path != [] && RootPath(tpls, path, tid) && |path| < MAX_DEPTH {
      PathIsClimb(tpls, path, tid, MAX_DEPTH);
      assert Reversed(Reversed(path)) == path;
    }
  }

  /** The walk itself, youngest first, cut off at `limit` templates. */
  method Walk(tpls: Templates, start: int, limit: nat) returns (ret: seq<int>)
    requires limit >= 1
    ensures ret == Climb(tpls, start, limit)
  {
    var tid, depth := start, 0;
    ret := [];
    while true
      invariant |ret| == depth < limit
      invariant ret + Climb(tpls, tid, limit - depth) == Climb(tpls, start, limit)
      decreases limit - depth
    {
      ghost var rest := Climb(tpls, tid, limit - depth);
      if tid <= 0 {
        assert rest == [];
        break;
      }
      if tid in tpls {
        assert rest == [tid] + Climb(tpls, tpls[tid].parentId, limit - depth - 1);
        ret := ret + [tid];
        tid := tpls[tid].parentId;
      } else {
        assert rest == [];
        break;
      }
      depth := depth + 1;
      if depth == limit {
        break;
      }
    }
  }

  method ParentIds(tpls: Templates, start: int) returns (ret: seq<int>)
    ensures ret == Chain(tpls, start)
    ensures ret == [] <==> !Known(tpls, start) || |Climb(tpls, start, MAX_DEPTH)| == MAX_DEPTH
    ensures ret != [] ==>
              && |ret| <= 9 && RootPath(tpls, ret, start)
              && forall i, j :: 0 <= i < j < |ret| ==> ret[i] != ret[j]
  {
    ChainIff(tpls, start, Chain(tpls, start));
    if Chain(tpls, start) != [] {
      PathDistinct(tpls, Chain(tpls, start));
    }
    ret := Walk(tpls, start, MAX_DEPTH);
    if |ret| == MAX_DEPTH {
      return [];
    }
    var sz := |ret|;
    if sz > 1 {
      ret := Reverse(ret);
    }
  }

  method Reverse(s: seq<int>) returns (r: seq<int>)
    ensures r == Reversed(s)
  {
    var sz := |s|;
    var desc := new int[sz];
    for i := 0 to sz
      invariant forall k :: sz - i <= k < sz ==> desc[k] == s[sz - k - 1]
    {
      desc[sz - i - 1] := s[i];
    }
    r := desc[..];
  }

  // ----- pruning -----

  predicate Within(a: seq<int>, b: seq<int>) {
    forall i :: 0 <= i < |a| ==> a[i] in b
  }

  /** All buckets are root paths of one forest of templates. */
  ghost predicate Paths(tpls: Templates, bs: seq<seq<int>>) {
    forall i :: 0 <= i < |bs| ==> bs[i] != [] && RootPath(tpls, bs[i], bs[i][|bs[i]| - 1])
  }

  lemma WithinIsPrefix(tpls: Templates, a: seq<int>, b: seq<int>)
    requires a != [] && RootPath(tpls, a, a[|a| - 1]) && b != [] && RootPath(tpls, b, b[|b| - 1])
    ensures Within(a, b) <==> a <= b
  {
    if Within(a, b) {
      assert a[|a| - 1] in b;
      var k :| 0 <= k < |b| && b[k] == a[|a| - 1];
      PathInit(tpls, b, k);
      PathUnique(tpls, a, b[..k + 1], b[k]);
    }
  }

  /** One path lies within another exactly when it leads to it, so two paths never drop each other. */
  lemma WithinIsOrder(tpls: Templates, a: seq<int>, b: seq<int>)
    requires a != [] && RootPath(tpls, a, a[|a| - 1]) && b != [] && RootPath(tpls, b, b[|b| - 1])
    ensures Within(a, b) <==> a <= b
    ensures Within(a, b) && Within(b, a) ==> a == b
    ensures Within(a, b) && a != b ==> |a| < |b|
  {
    WithinIsPrefix(tpls, a, b);
    WithinIsPrefix(tpls, b, a);
  }

  /** Scanning the other buckets from `j`: an equal one stops the scan, one around it drops the bucket. */
  predicate Survives(bs: seq<seq<int>>, i: nat, j: nat)
    requires i < |bs| && j <= |bs|
    decreases |bs| - j
  {
    if j == |bs| then true
    else if j == i then Survives(bs, i, j + 1)
    else if bs[i] == bs[j] then true
    else if Within(bs[i], bs[j]) then false
    else Survives(bs, i, j + 1)
  }

  predicate Kept(bs: seq<seq<int>>, i: nat)
    requires i < |bs|
  {
    Survives(bs, i, 0)
  }

  predicate Around(bs: seq<seq<int>>, s: int, i: nat)
    requires i < |bs|
  {
    0 <= s < |bs| && bs[s] != bs[i] && Within(bs[i], bs[s])
  }

  predicate Twin(bs: seq<seq<int>>, e: int, i: nat)
    requires i < |bs|
  {
    0 <= e < |bs| && e != i && bs[e] == bs[i]
  }

  /** A bucket is kept exactly when each bucket around it comes after an equal twin. */
  lemma {:induction false} SurvivesIff(bs: seq<seq<int>>, i: nat, j: nat)
    requires i < |bs| && j <= |bs|
    ensures Survives(bs, i, j) <==> forall s :: j <= s && Around(bs, s, i) ==> exists e :: j <= e < s && Twin(bs, e, i)
    decreases |bs| - j
  {
    if j < |bs| {
      SurvivesIff(bs, i, j + 1);
      if Twin(bs, j, i) {
        forall s | j <= s && Around(bs, s, i) ensures exists e :: j <= e < s && Twin(bs, e, i) {
          assert j < s;
        }
      } else if !Around(bs, j, i) {
        forall s | j <= s && Around(bs, s, i)
          ensures (exists e :: j <= e < s && Twin(bs, e, i)) <==> exists e :: j + 1 <= e < s && Twin(bs, e, i)
        {
        }
      }
    }
  }

  function KeptFrom(bs: seq<seq<int>>, i: nat): seq<seq<int>>
    requires i <= |bs|
    decreases |bs| - i
  {
    if i == |bs| then [] else if Kept(bs, i) then [bs[i]] + KeptFrom(bs, i + 1) else KeptFrom(bs, i + 1)
  }

  lemma {:induction false} KeptFromIff(bs: seq<seq<int>>, i: nat, b: seq<int>)
    requires i <= |bs|
    ensures b in KeptFrom(bs, i) <==> exists k :: i <= k < |bs| && Kept(bs, k) && bs[k] == b
    decreases |bs| - i
  {
    if i < |bs| {
      KeptFromIff(bs, i + 1, b);
    }
  }

  method SliceEq(a: seq<int>, b: seq<int>) returns (eq: bool)
    ensures eq <==> a == b
  {
    if |a| != |b| {
      return false;
    }
    for i := 0 to |a|
      invariant forall k :: 0 <= k < i ==> a[k] == b[k]
    {
      if a[i] != b[i] {
        return false;
      }
    }
    return true;
  }

  method SliceLt(a: seq<int>, b: seq<int>) returns (lt: bool)
    ensures lt <==> Within(a, b)
  {
    for i := 0 to |a|
      invariant forall k :: 0 <= k < i ==> a[k] in b
    {
      var found := SliceContains(b, a[i]);
      if !found {
        return false;
      }
    }
    return true;
  }

  method SliceContains(list: seq<int>, target: int) returns (found: bool)
    ensures found <==> target in list
  {
    for i := 0 to |list|
      invariant target !in list[..i]
    {
      if list[i] == target {
        return true;
      }
    }
    return false;
  }

  method IsValidBucket(bs: seq<seq<int>>, i: nat) returns (valid: bool)
    requires i < |bs|
    ensures valid == Kept(bs, i)
  {
    valid := true;
    for j := 0 to |bs|
      invariant valid && Survives(bs, i, 0) == Survives(bs, i, j)
    {
      if i != j {
        var eq := SliceEq(bs[i], bs[j]);
        if eq {
          break;
        }
        var lt := SliceLt(bs[i], bs[j]);
        if lt {
          valid := false;
          break;
        }
      }
    }
  }

  method Prune(bs: seq<seq<int>>) returns (uniq: seq<seq<int>>)
    ensures uniq == KeptFrom(bs, 0)
  {
    uniq := [];
    for i := 0 to |bs|
      invariant uniq + KeptFrom(bs, i) == KeptFrom(bs, 0)
    {
      var valid := IsValidBucket(bs, i);
      if valid {
        uniq := uniq + [bs[i]];
      }
    }
  }

  /** Nothing is lost: every bucket lies within a kept one, repeated or not. */
  lemma {:induction false} CoveredByKept(tpls: Templates, bs: seq<seq<int>>, i: nat, bound: nat) returns (k: nat)
    requires i < |bs| && Paths(tpls, bs) && forall n :: 0 <= n < |bs| ==> |bs[n]| <= bound
    ensures k < |bs| && Kept(bs, k) && Within(bs[i], bs[k]) && |bs[i]| <= |bs[k]|
    decreases bound - |bs[i]|
  {
    k := i;
    SurvivesIff(bs, i, 0);
    if !Kept(bs, i) {
      var s :| 0 <= s < |bs| && Around(bs, s, i) && !exists e :: 0 <= e < s && Twin(bs, e, i);
      WithinIsOrder(tpls, bs[i], bs[s]);
      k := CoveredByKept(tpls, bs, s, bound);
      WithinIsOrder(tpls, bs[s], bs[k]);
      WithinIsOrder(tpls, bs[i], bs[k]);
    }
  }

  /** No kept bucket lies within another kept one. */
  ghost predicate Irredundant(bs: seq<seq<int>>) {
    forall p, q :: 0 <= p < |bs| && 0 <= q < |bs| && p != q && Kept(bs, p) && Kept(bs, q) ==> !Within(bs[p], bs[q])
  }

  /** Every bucket that is repeated has a larger one around it before its first occurrence. */
  ghost predicate RepeatsCovered(bs: seq<seq<int>>) {
    forall i, e :: 0 <= i < e < |bs| && bs[i] == bs[e] ==> exists s :: s < i && Around(bs, s, i)
  }

  /** Under that condition every repeated bucket is dropped. */
  lemma {:induction false} RepeatedIsDropped(bs: seq<seq<int>>, i: nat, e: nat, s: int)
    requires RepeatsCovered(bs) && i < |bs| && Twin(bs, e, i) && Around(bs, s, i)
    requires s < i && s < e
    ensures !Kept(bs, i)
    decreases s
  {
    SurvivesIff(bs, i, 0);
    if e' :| 0 <= e' < s && Twin(bs, e', i) {
      var s' :| s' < e' && Around(bs, s', e');
      RepeatedIsDropped(bs, i, e', s');
    }
  }

  lemma TwinIsDropped(bs: seq<seq<int>>, i: nat, e: nat)
    requires RepeatsCovered(bs) && i < |bs| && Twin(bs, e, i)
    ensures !Kept(bs, i)
  {
    var first := if i < e then i else e;
    var s :| s < first && Around(bs, s, first);
    RepeatedIsDropped(bs, i, e, s);
  }

  /** Pruning leaves no redundant bucket exactly under that condition. */
  lemma IrredundantIff(tpls: Templates, bs: seq<seq<int>>, bound: nat)
    requires Paths(tpls, bs) && forall n :: 0 <= n < |bs| ==> |bs[n]| <= bound
    ensures Irredundant(bs) <==> RepeatsCovered(bs)
  {
    if RepeatsCovered(bs) {
      forall p, q | 0 <= p < |bs| && 0 <= q < |bs| && p != q && Kept(bs, p) && Kept(bs, q)
        ensures !Within(bs[p], bs[q])
      {
        if bs[p] == bs[q] {
          TwinIsDropped(bs, p, q);
        } else if Within(bs[p], bs[q]) {
          SurvivesIff(bs, p, 0);
          assert Around(bs, q, p);
          var e :| 0 <= e < q && Twin(bs, e, p);
          TwinIsDropped(bs, p, e);
        }
      }
    }
    if !RepeatsCovered(bs) {
      var i, e :| 0 <= i < e < |bs| && bs[i] == bs[e] && !exists s :: s < i && Around(bs, s, i);
      RepeatIsRedundant(tpls, bs, bound, i, e);
    }
  }

  lemma RepeatIsRedundant(tpls: Templates, bs: seq<seq<int>>, bound: nat, i: nat, e: nat)
    requires Paths(tpls, bs) && forall n :: 0 <= n < |bs| ==> |bs[n]| <= bound
    requires i < e < |bs| && bs[i] == bs[e] && !exists s :: s < i && Around(bs, s, i)
    ensures !Irredundant(bs)
  {
    SurvivesIff(bs, i, 0);
    SurvivesIff(bs, e, 0);
    forall s | Around(bs, s, e) ensures exists t :: 0 <= t < s && Twin(bs, t, e) {
      assert Around(bs, s, i);
      assert Twin(bs, i, e);
    }
    assert Kept(bs, e);
    if s :| Around(bs, s, i) {
      var k := CoveredByKept(tpls, bs, s, bound);
      WithinIsOrder(tpls, bs[i], bs[s]);
      WithinIsOrder(tpls, bs[s], bs[k]);
      WithinIsOrder(tpls, bs[e], bs[k]);
      assert k != e;
    } else {
      assert Kept(bs, i) && Within(bs[i], bs[e]);
    }
  }

  // ----- the chains of one host -----

  function NonEmpty<T>(cs: seq<seq<T>>): seq<seq<T>> {
    if cs == [] then []
    else
      var rest, c := NonEmpty(cs[..|cs| - 1]), cs[|cs| - 1];
      if c == [] then rest else rest + [c]
  }

  lemma {:induction false} NonEmptyIff<T>(cs: seq<seq<T>>, b: seq<T>)
    ensures b in NonEmpty(cs) <==> b != [] && b in cs
  {
    if cs != [] {
      NonEmptyIff(cs[..|cs| - 1], b);
      assert b in cs <==> b in cs[..|cs| - 1] || b == cs[|cs| - 1];
    }
  }

  lemma {:induction false} NonEmptyDistinct<T>(cs: seq<seq<T>>)
    requires forall i, j :: 0 <= i < j < |cs| && cs[i] == cs[j] ==> cs[i] == []
    ensures forall i, j :: 0 <= i < j < |NonEmpty(cs)| ==> NonEmpty(cs)[i] != NonEmpty(cs)[j]
  {
    if cs != [] {
      NonEmptyDistinct(cs[..|cs| - 1]);
      NonEmptyIff(cs[..|cs| - 1], cs[|cs| - 1]);
    }
  }

  function ChainsOf(tpls: Templates, tids: seq<int>): (cs: seq<seq<int>>)
    ensures |cs| == |tids| && forall i :: 0 <= i < |tids| ==> cs[i] == Chain(tpls, tids[i])
  {
    seq(|tids|, i requires 0 <= i < |tids| => Chain(tpls, tids[i]))
  }

  function Buckets(tpls: Templates, tids: seq<int>): seq<seq<int>> {
    NonEmpty(ChainsOf(tpls, tids))
  }

  method CollectBuckets(tpls: Templates, tids: seq<int>) returns (bs: seq<seq<int>>)
    ensures bs == Buckets(tpls, tids)
  {
    ghost var cs := ChainsOf(tpls, tids);
    bs := [];
    for i := 0 to |tids|
      invariant bs == NonEmpty(cs[..i])
    {
      assert cs[..i + 1][..i] == cs[..i];
      var ids := ParentIds(tpls, tids[i]);
      if |ids| > 0 {
        bs := bs + [ids];
      }
    }
    assert cs[..|tids|] == cs;
  }

  predicate Distinct(tids: seq<int>) {
    forall i, j :: 0 <= i < j < |tids| ==> tids[i] != tids[j]
  }

  /** A chain ends with its own template. */
  lemma ChainLast(tpls: Templates, tid: int)
    ensures var c := Chain(tpls, tid); c != [] ==> c[|c| - 1] == tid
  {
    ChainIff(tpls, tid, Chain(tpls, tid));
  }

  /** The buckets are root paths shorter than the bound; distinct templates give distinct buckets. */
  lemma BucketsArePaths(tpls: Templates, tids: seq<int>)
    ensures var bs := Buckets(tpls, tids);
            && Paths(tpls, bs)
            && (forall i :: 0 <= i < |bs| ==> |bs[i]| < MAX_DEPTH)
            && (Distinct(tids) ==> forall i, j :: 0 <= i < j < |bs| ==> bs[i] != bs[j])
  {
    var cs, bs := ChainsOf(tpls, tids), Buckets(tpls, tids);
    forall i | 0 <= i < |bs|
      ensures bs[i] != [] && RootPath(tpls, bs[i], bs[i][|bs[i]| - 1]) && |bs[i]| < MAX_DEPTH
    {
      NonEmptyIff(cs, bs[i]);
      var n :| 0 <= n < |cs| && cs[n] == bs[i];
      ChainIff(tpls, tids[n], bs[i]);
    }
    if Distinct(tids) {
      forall i, j | 0 <= i < j < |cs| && cs[i] == cs[j] ensures cs[i] == [] {
        ChainLast(tpls, tids[i]);
        ChainLast(tpls, tids[j]);
      }
      NonEmptyDistinct(cs);
    }
  }

  /** For distinct templates a bucket is dropped exactly when another one contains it. */
  lemma DroppedIff(bs: seq<seq<int>>, i: nat)
    requires i < |bs| && forall k, j :: 0 <= k < j < |bs| ==> bs[k] != bs[j]
    ensures !Kept(bs, i) <==> exists j :: 0 <= j < |bs| && j != i && Within(bs[i], bs[j])
  {
    SurvivesIff(bs, i, 0);
    if j :| 0 <= j < |bs| && j != i && Within(bs[i], bs[j]) {
      assert Around(bs, j, i);
    }
  }

  /** Every valid chain of the host lies within a kept bucket. */
  lemma ChainIsCovered(tpls: Templates, tids: seq<int>, n: nat) returns (k: nat)
    requires n < |tids| && Chain(tpls, tids[n]) != []
    ensures k < |Buckets(tpls, tids)| && Kept(Buckets(tpls, tids), k)
            && Within(Chain(tpls, tids[n]), Buckets(tpls, tids)[k])
  {
    var bs, c := Buckets(tpls, tids), Chain(tpls, tids[n]);
    BucketsArePaths(tpls, tids);
    assert ChainsOf(tpls, tids)[n] == c;
    NonEmptyIff(ChainsOf(tpls, tids), c);
    var i :| 0 <= i < |bs| && bs[i] == c;
    k := CoveredByKept(tpls, bs, i, MAX_DEPTH);
  }

  /** Pruning leaves no redundant bucket exactly when each repeated chain has a longer one before it. For
      distinct templates that is so, and a bucket is dropped exactly when another one contains it. */
  lemma PruningIsExact(tpls: Templates, tids: seq<int>)
    ensures var bs := Buckets(tpls, tids);
            && (Irredundant(bs) <==> RepeatsCovered(bs))
            && (Distinct(tids) ==>
                  && Irredundant(bs)
                  && forall i :: 0 <= i < |bs| ==>
                       (!Kept(bs, i) <==> exists j :: 0 <= j < |bs| && j != i && Within(bs[i], bs[j])))
  {
    var bs := Buckets(tpls, tids);
    BucketsArePaths(tpls, tids);
    IrredundantIff(tpls, bs, MAX_DEPTH);
    if Distinct(tids) {
      forall i | 0 <= i < |bs| ensures !Kept(bs, i) <==> exists j :: 0 <= j < |bs| && j != i && Within(bs[i], bs[j]) {
        DroppedIff(bs, i);
      }
    }
  }

  lemma NonEmptyNext<T>(cs: seq<seq<T>>, c: seq<T>)
    requires c != []
    ensures NonEmpty(cs + [c]) == NonEmpty(cs) + [c]
  {
    assert (cs + [c])[..|cs|] == cs;
  }

  lemma ThreeBuckets<T>(a: seq<T>, b: seq<T>, c: seq<T>)
    requires a != [] && b != [] && c != []
    ensures NonEmpty([a, b, c]) == [a, b, c]
  {
    NonEmptyNext([], a);
    NonEmptyNext([a], b);
    NonEmptyNext([a, b], c);
    assert [] + [a] == [a] && [a] + [b] == [a, b] && [a, b] + [c] == [a, b, c];
  }

  /** The buckets of a host with templates 1, 1 and 2, where 2 inherits from 1. */
  lemma RepeatedBuckets(tpls: Templates)
    requires tpls == map[1 := Template(1, 0), 2 := Template(2, 1)]
    ensures Buckets(tpls, [1, 1, 2]) == [[1], [1], [1, 2]]
  {
    ChainIff(tpls, 1, [1]);
    ChainIff(tpls, 2, [1, 2]);
    assert ChainsOf(tpls, [1, 1, 2]) == [[1], [1], [1, 2]];
    ThreeBuckets([1], [1], [1, 2]);
  }

  lemma RepeatIsKept(bs: seq<seq<int>>)
    requires bs == [[1], [1], [1, 2]]
    ensures Kept(bs, 0) && Within(bs[0], bs[2]) && !Irredundant(bs)
  {
    SurvivesIff(bs, 0, 0);
    SurvivesIff(bs, 2, 0);
    assert Twin(bs, 1, 0);
    assert bs[2][1] == 2 && 2 !in bs[0] && 2 !in bs[1];
    assert !Around(bs, 0, 2) && !Around(bs, 1, 2);
  }

  /** A host that has a template twice keeps it beside the template that inherits from it. */
  lemma RepeatedTemplateIsKept(tpls: Templates)
    requires tpls == map[1 := Template(1, 0), 2 := Template(2, 1)]
    ensures var bs := Buckets(tpls, [1, 1, 2]);
            |bs| == 3 && bs[0] == [1] && bs[2] == [1, 2] && Kept(bs, 0) && Within(bs[0], bs[2]) && !Irredundant(bs)
  {
    RepeatedBuckets(tpls);
    RepeatIsKept([[1], [1], [1, 2]]);
  }
}
