/** The judge's sample history (modules/judge/store/linkedlist.go, history.go): a bounded list of
    samples per key, newest first. A container/list is a class over a sequence. */
module JudgeHistory {
  import opened Seqs

  datatype JudgeItem = JudgeItem(endpoint: string, metric: string, value: real, ts: int, judgeType: string,
                                 tags: map<string, string>)
  datatype HistoryPoint = HistoryPoint(ts: int, value: real)

  ghost predicate Decreasing(l: seq<JudgeItem>) {
    forall i, j :: 0 <= i < j < |l| ==> l[j].ts < l[i].ts
  }

  // ----- what one push and one read do -----

  /** A list takes its first sample as it is, later ones only with a positive timestamp above the front. */
  predicate Accepts(l: seq<JudgeItem>, v: JudgeItem) {
    l == [] || (l[0].ts < v.ts && 0 < v.ts)
  }

  function Pushed(l: seq<JudgeItem>, v: JudgeItem, maxCount: nat): seq<JudgeItem> {
    if Accepts(l, v) then Take([v] + l, maxCount) else l
  }

  lemma PushedDecreasing(l: seq<JudgeItem>, v: JudgeItem, maxCount: nat)
    requires Decreasing(l)
    ensures Decreasing(Pushed(l, v, maxCount))
  {
  }

  predicate IsGauge(judgeType: string) {
    judgeType != "" && (judgeType[0] == 'G' || judgeType[0] == 'g')
  }

  /** The list can be read: judge types are indexed at their first character. */
  predicate Readable(l: seq<JudgeItem>) {
    l != [] ==> l[0].judgeType != ""
  }

  /** The rate between a sample and the older one behind it. In a judge list the divisor is positive. */
  function RateOf(newer: JudgeItem, older: JudgeItem): real
    requires older.ts < newer.ts
  {
    (newer.value - older.value) / (newer.ts - older.ts) as real
  }

  /** How many points `limit` asks for and the list can give. */
  function WindowSize(l: seq<JudgeItem>, limit: int): nat {
    if limit < 1 || l == [] then 0
    else if IsGauge(l[0].judgeType) then if |l| < limit then |l| else limit
    else if |l| < limit + 1 then |l| - 1 else limit
  }

  predicate IsEnough(l: seq<JudgeItem>, limit: int) {
    limit >= 1 && l != [] && (if IsGauge(l[0].judgeType) then limit <= |l| else limit + 1 <= |l|)
  }

  function PointOf(l: seq<JudgeItem>, i: nat): HistoryPoint
    requires Decreasing(l) && i < |l|
    requires !IsGauge(l[0].judgeType) ==> i + 1 < |l|
  {
    HistoryPoint(l[i].ts, if IsGauge(l[0].judgeType) then l[i].value else RateOf(l[i], l[i + 1]))
  }

  function Window(l: seq<JudgeItem>, limit: int): seq<HistoryPoint>
    requires Decreasing(l)
  {
    seq(WindowSize(l, limit), i requires 0 <= i < WindowSize(l, limit) => PointOf(l, i))
  }

  /** A window is newest first, starts at the newest sample and has `limit` points exactly when it is enough. */
  lemma WindowProperties(l: seq<JudgeItem>, limit: int)
    requires Decreasing(l)
    ensures IsEnough(l, limit) <==> limit >= 1 && |Window(l, limit)| == limit
    ensures forall i, j :: 0 <= i < j < |Window(l, limit)| ==> Window(l, limit)[j].ts < Window(l, limit)[i].ts
    ensures Window(l, limit) != [] ==> Window(l, limit)[0].ts == l[0].ts
    ensures forall i :: 0 <= i < |Window(l, limit)| ==> Window(l, limit)[i].ts == l[i].ts
  {
  }

  lemma QuotientTimes(a: real, b: real)
    requires b != 0.0
    ensures a / b * b == a
  {
  }

  /** The points of a gauge are the newest samples themselves; otherwise a point's value times the seconds to the older
      sample behind it is the change from that sample, and the oldest sample has no point of its own. */
  lemma WindowValues(l: seq<JudgeItem>, limit: int)
    requires Decreasing(l) && l != [] && limit >= 1 && l[0].judgeType != ""
    ensures var w, gauge := Window(l, limit), l[0].judgeType[0] == 'G' || l[0].judgeType[0] == 'g';
            && |w| == (var most := if gauge then |l| else |l| - 1; if limit < most then limit else most)
            && forall i :: 0 <= i < |w| ==>
                 if gauge then w[i].value == l[i].value
                 else w[i].value * (l[i].ts - l[i + 1].ts) as real == l[i].value - l[i + 1].value
  {
    var w := Window(l, limit);
    forall i | 0 <= i < |w| && !IsGauge(l[0].judgeType)
      ensures w[i].value * (l[i].ts - l[i + 1].ts) as real == l[i].value - l[i + 1].value
    {
      QuotientTimes(l[i].value - l[i + 1].value, (l[i].ts - l[i + 1].ts) as real);
    }
  }

  class SafeLinkedList {
    var L: seq<JudgeItem>

    ghost predicate Valid()
      reads this
    {
      Decreasing(L)
    }

    constructor (v: JudgeItem)
      ensures Valid() && L == [v]
    {
      L := [v];
    }

    method PushFrontAndMaintain(v: JudgeItem, maxCount: nat) returns (needJudge: bool)
      requires Valid()
      modifies this
      ensures Valid()
      ensures needJudge == Accepts(old(L), v)
      ensures L == Pushed(old(L), v, maxCount)
    {
      PushedDecreasing(L, v, maxCount);
      var sz := |L|;
      if sz > 0 {
        if v.ts <= L[0].ts || v.ts <= 0 {
          return false;
        }
      }
      L := [v] + L;
      sz := sz + 1;
      if sz <= maxCount {
        return true;
      }
      var del := sz - maxCount;
      for i := 0 to del
        invariant L == ([v] + old(L))[..sz - i]
      {
        L := L[..|L| - 1];
      }
      return true;
    }

    method HistoryData(limit: int) returns (vs: seq<HistoryPoint>, isEnough: bool)
      requires Valid() && (limit >= 1 ==> Readable(L))
      ensures vs == Window(L, limit)
      ensures isEnough == IsEnough(L, limit)
    {
      if limit < 1 {
        return [], false;
      }
      var size := |L|;
      if size == 0 {
        return [], false;
      }
      var judgeType := L[0].judgeType[0];
      var count := limit;
      isEnough := true;
      if judgeType == 'G' || judgeType == 'g' {
        if size < count {
          count := size;
          isEnough := false;
        }
        vs := [HistoryPoint(L[0].ts, L[0].value)];
        var i := 1;
        while i < count
          invariant 1 <= i <= count && vs == Window(L, limit)[..i]
        {
          vs := vs + [HistoryPoint(L[i].ts, L[i].value)];
          i := i + 1;
        }
      } else {
        if size < count + 1 {
          isEnough := false;
          count := size - 1;
        }
        vs := [];
        var i := 0;
        while i < count
          invariant 0 <= i <= count && vs == Window(L, limit)[..i]
        {
          var diffVal := L[i].value - L[i + 1].value;
          var diffTs := L[i].ts - L[i + 1].ts;
          vs := vs + [HistoryPoint(L[i].ts, diffVal / diffTs as real)];
          i := i + 1;
        }
      }
    }
  }

  // ----- the map of lists -----

  /** A key's first sample makes its list; it is not checked. */
  function PushedMap(m: map<string, seq<JudgeItem>>, key: string, val: JudgeItem,
                     maxCount: nat): map<string, seq<JudgeItem>> {
    m[key := if key in m then Pushed(m[key], val, maxCount) else [val]]
  }

  lemma IsUpdated<K, V>(m: map<K, V>, key: K, v: V, m': map<K, V>)
    requires forall k :: k in m' <==> k in m || k == key
    requires forall k :: k in m' ==> m'[k] == if k == key then v else m[k]
    ensures m' == m[key := v]
  {
  }

  class JudgeItemMap {
    var M: map<string, SafeLinkedList>

    ghost function Lists(): set<object>
      reads this
    {
      set k | k in M :: M[k]
    }

    ghost predicate Valid()
      reads this, Lists()
    {
      && (forall k :: k in M ==> M[k].Valid())
      && (forall k, k' :: k in M && k' in M && k != k' ==> M[k] != M[k'])
    }

    ghost function Contents(): map<string, seq<JudgeItem>>
      reads this, Lists()
    {
      map k | k in M :: M[k].L
    }

    constructor ()
      ensures Valid() && Contents() == map[]
    {
      M := map[];
    }

    method BatchDelete(keys: seq<string>)
      requires Valid()
      modifies this
      ensures Valid() && Lists() <= old(Lists())
      ensures Contents() == map k | k in old(Contents()) && k !in keys :: old(Contents())[k]
    {
      for i := 0 to |keys|
        invariant forall k :: k in M <==> k in old(M) && k !in keys[..i]
        invariant forall k :: k in M ==> M[k] == old(M)[k]
      {
        M := M - {keys[i]};
      }
    }

    /** Drops the keys whose newest sample is older than `before`. */
    method CleanStale(before: int)
      requires Valid()
      modifies this
      ensures Valid()
      ensures Contents() == map k | k in old(Contents())
              && !(old(Contents())[k] != [] && old(Contents())[k][0].ts < before)
                            :: old(Contents())[k]
    {
      var keys: seq<string> := [];
      var rest := M.Keys;
      while rest != {}
        invariant rest <= M.Keys
        invariant forall k :: k in keys <==> k in M && k !in rest && M[k].L != [] && M[k].L[0].ts < before
        decreases |rest|
      {
        var k :| k in rest;
        rest := rest - {k};
        if |M[k].L| > 0 && M[k].L[0].ts < before {
          keys := keys + [k];
        }
      }
      BatchDelete(keys);
    }

    /** Returns whether the new sample is judged. */
    method PushFrontAndMaintain(key: string, val: JudgeItem, maxCount: nat) returns (needJudge: bool)
      requires Valid()
      modifies this, Lists()
      ensures Valid() && fresh(Lists() - old(Lists()))
      ensures needJudge == (key in old(Contents()) ==> Accepts(old(Contents())[key], val))
      ensures Contents() == PushedMap(old(Contents()), key, val, maxCount)
    {
      ghost var before := Contents();
      if key in M {
        var linkedList := M[key];
        needJudge := linkedList.PushFrontAndMaintain(val, maxCount);
        IsUpdated(before, key, linkedList.L, Contents());
      } else {
        PushNew(key, val);
        needJudge := true;
      }
    }

    /** A key's first sample. */
    method PushNew(key: string, val: JudgeItem)
      requires Valid() && key !in M
      modifies this
      ensures Valid() && fresh(Lists() - old(Lists()))
      ensures Contents() == old(Contents())[key := [val]]
    {
      ghost var before := Contents();
      var safeList := new SafeLinkedList(val);
      M := M[key := safeList];
      IsUpdated(before, key, [val], Contents());
    }
  }

  // ----- whole streams -----

  /** The list after a stream of samples for one key. */
  function Run(stream: seq<JudgeItem>, remain: nat): seq<JudgeItem> {
    if stream == [] then []
    else Pushed(Run(stream[..|stream| - 1], remain), stream[|stream| - 1], remain)
  }

  /** A sample counts when it is the key's first, or positive and above everything before it. */
  predicate NewHigh(before: seq<JudgeItem>, v: JudgeItem) {
    before == [] || (0 < v.ts && forall i :: 0 <= i < |before| ==> before[i].ts < v.ts)
  }

  function Accepted(stream: seq<JudgeItem>): seq<JudgeItem> {
    if stream == [] then []
    else
      var before, v := stream[..|stream| - 1], stream[|stream| - 1];
      if NewHigh(before, v) then Accepted(before) + [v] else Accepted(before)
  }

  /** The front is the newest accepted sample, and it is a new high exactly when the list takes it. */
  lemma {:induction false} FrontIsHigh(stream: seq<JudgeItem>, remain: nat, v: JudgeItem)
    requires remain >= 1
    ensures stream != [] ==> Run(stream, remain) != []
    ensures Accepts(Run(stream, remain), v) <==> NewHigh(stream, v)
  {
    if stream != [] {
      var before, last := stream[..|stream| - 1], stream[|stream| - 1];
      FrontIsHigh(before, remain, last);
      FrontIsHigh(before, remain, v);
      assert forall i :: 0 <= i < |before| ==> before[i] == stream[i];
    }
  }

  /** After any stream the history is the most recent `remain` accepted samples, newest first. */
  lemma {:induction false} HistoryIsRecentAccepted(stream: seq<JudgeItem>, remain: nat)
    requires remain >= 1
    ensures Run(stream, remain) == Take(Reversed(Accepted(stream)), remain)
    ensures Run(stream, remain) <= Reversed(Accepted(stream))
    ensures |Run(stream, remain)| == if |Accepted(stream)| < remain then |Accepted(stream)| else remain
    ensures Decreasing(Run(stream, remain))
  {
    if stream != [] {
      var before, v := stream[..|stream| - 1], stream[|stream| - 1];
      HistoryIsRecentAccepted(before, remain);
      FrontIsHigh(before, remain, v);
      PushedDecreasing(Run(before, remain), v, remain);
      TakePushed(Accepted(before), v, remain);
    }
  }

  /** The same for the whole map: each key's list depends on that key's samples alone. */
  function RunMap(stream: seq<(string, JudgeItem)>, remain: nat): map<string, seq<JudgeItem>> {
    if stream == [] then map[]
    else
      var m, last := RunMap(stream[..|stream| - 1], remain), stream[|stream| - 1];
      PushedMap(m, last.0, last.1, remain)
  }

  function SamplesOf(stream: seq<(string, JudgeItem)>, key: string): seq<JudgeItem> {
    if stream == [] then []
    else
      var rest, last := SamplesOf(stream[..|stream| - 1], key), stream[|stream| - 1];
      if last.0 == key then rest + [last.1] else rest
  }

  lemma RunAppend(stream: seq<JudgeItem>, v: JudgeItem, remain: nat)
    ensures Run(stream + [v], remain) == Pushed(Run(stream, remain), v, remain)
  {
    assert (stream + [v])[..|stream|] == stream;
  }

  lemma {:induction false} KeysAreIndependent(stream: seq<(string, JudgeItem)>, remain: nat, key: string)
    requires remain >= 1
    ensures key in RunMap(stream, remain) <==> SamplesOf(stream, key) != []
    ensures key in RunMap(stream, remain) ==> RunMap(stream, remain)[key] == Run(SamplesOf(stream, key), remain)
  {
    if stream != [] {
      var last, mine := stream[|stream| - 1], SamplesOf(stream[..|stream| - 1], key);
      KeysAreIndependent(stream[..|stream| - 1], remain, key);
      if last.0 == key {
        RunAppend(mine, last.1, remain);
      }
    }
  }
}
