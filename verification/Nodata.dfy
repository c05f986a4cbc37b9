/** The nodata judge (modules/nodata/judge/judge_cron.go, status.go): keys whose samples stop arriving get mock
    samples in their place. Configurations and collected samples are arguments of a round; which configurations there
    can be is the subject of NodataConfig. */
module Nodata {
  import opened Clock
  import opened NodataConfig
  import opened Options

  // ----- timing -----

  /** The timestamp of a mock sample: aligned, and two steps back so as not to cover regular samples. */
  function GenTs(now: int, step: int): int {
    var s := if step < 1 then 60 else step;
    Align(now, s) - 2 * s
  }

  function GetTimeout(step: int): int {
    if step < 60 then 180 else step * 3
  }

  const MIN_FLOAT := 0.000001

  function FCompare(left: real, right: real): int {
    var sub := left - right;
    if -MIN_FLOAT < sub < MIN_FLOAT then 0 else if sub >= MIN_FLOAT then 1 else -1
  }

  lemma GenTsPlace(now: int, step: int)
    requires step >= 1 && now >= 0
    ensures Aligned(GenTs(now, step), step) && now - 3 * step < GenTs(now, step) <= now - 2 * step
  {
    AlignProperties(now, step);
    MultipleIsAligned(-2, step);
    AlignedSum(Align(now, step), -2 * step, step);
  }

  /** A step or more later, the mock is a step or more later. */
  lemma GenTsSpaced(t: int, now: int, step: int)
    requires step >= 1 && t >= 0 && t + step <= now
    ensures GenTs(t, step) + step <= GenTs(now, step)
  {
    GenTsPlace(t, step);
    GenTsPlace(now, step);
    AlignedGap(GenTs(t, step), GenTs(now, step), step);
  }

  /** A mock sent because the last sample is stale is newer than that sample and two steps or more in the past. */
  lemma StaleMockIsNewer(now: int, step: int, sampleTs: int)
    requires step >= 1 && now >= 0 && sampleTs < now - GetTimeout(step)
    ensures sampleTs < GenTs(now, step) <= now - 2 * step
  {
    GenTsPlace(now, step);
  }

  // ----- one key in one round -----

  datatype Item = Item(fetched: bool, fetchTs: int, ts: int, value: real)

  datatype NodataStatus = NodataStatus(ok: bool, cnt: nat, ts: int)

  /** What a round sees of one key; either part may be missing. */
  datatype View = View(now: int, config: Option<NdConfig>, item: Option<Item>)

  datatype Verdict = Skip | Mock | Good

  function LastTsOf(entry: Option<NodataStatus>): int {
    if entry.Some? then entry.value.ts else 0
  }

  function VerdictOn(entry: Option<NodataStatus>, v: View): Verdict {
    if v.config.None? || v.item.None? then Skip
    else
      var step, item, lastTs := v.config.value.step, v.item.value, v.now - GetTimeout(v.config.value.step);
      if !item.fetched || item.fetchTs < lastTs then Skip
      else if FCompare(v.config.value.mock, item.value) != 0 && item.ts >= lastTs then Good
      else if LastTsOf(entry) + step <= v.now then Mock
      else Skip
  }

  function StepEntry(entry: Option<NodataStatus>, v: View): Option<NodataStatus> {
    match VerdictOn(entry, v)
    case Skip => entry
    case Good => Some(NodataStatus(true, 0, v.now))
    case Mock => Some(NodataStatus(false, (if entry.Some? then entry.value.cnt else 0) + 1, v.now))
  }

  function StepMock(entry: Option<NodataStatus>, v: View): seq<int> {
    if VerdictOn(entry, v).Mock? then [GenTs(v.now, v.config.value.step)] else []
  }

  // ----- a round -----

  datatype Round<K(==)> = Round(now: int, keys: seq<K>, configs: map<K, NdConfig>, items: map<K, Item>)

  function Lookup<K(==), V>(m: map<K, V>, k: K): Option<V> {
    if k in m then Some(m[k]) else None
  }

  function ViewOf<K(==)>(round: Round<K>, k: K): View {
    if k in round.keys then View(round.now, Lookup(round.configs, k), Lookup(round.items, k))
    else View(round.now, None, None)
  }

  predicate Distinct<K(==)>(keys: seq<K>) {
    forall i, j :: 0 <= i < j < |keys| ==> keys[i] != keys[j]
  }

  datatype MockItem<K> = MockItem(key: K, ts: int)

  ghost function MocksOfKey<K>(k: K, status: map<K, NodataStatus>, round: Round<K>): seq<MockItem<K>> {
    var mock := StepMock(Lookup(status, k), ViewOf(round, k));
    if mock == [] then [] else [MockItem(k, mock[0])]
  }

  /** The mocks of a round, in the order of the keys. */
  ghost function MocksOf<K>(keys: seq<K>, status: map<K, NodataStatus>, round: Round<K>): seq<MockItem<K>> {
    if keys == [] then []
    else MocksOf(keys[..|keys| - 1], status, round) + MocksOfKey(keys[|keys| - 1], status, round)
  }

  /** One key's part of a round: its status takes a step, the others stay. */
  ghost predicate JudgedKey<K(!new)>(before: map<K, NodataStatus>, after: map<K, NodataStatus>, round: Round<K>,
                                     key: K) {
    forall k :: Lookup(after, k) ==
                if k == key then StepEntry(Lookup(before, k), ViewOf(round, k)) else Lookup(before, k)
  }

  /** The first n keys of a round have taken their step. */
  ghost predicate JudgedTo<K(!new)>(first: map<K, NodataStatus>, now: map<K, NodataStatus>, round: Round<K>, n: nat)
    requires n <= |round.keys|
  {
    forall k :: Lookup(now, k) ==
                if k in round.keys[..n] then StepEntry(Lookup(first, k), ViewOf(round, k)) else Lookup(first, k)
  }

  lemma AmongFirst<K>(keys: seq<K>, n: nat, k: K)
    requires n < |keys|
    ensures k in keys[..n + 1] <==> k in keys[..n] || k == keys[n]
    ensures Distinct(keys) ==> keys[n] !in keys[..n]
  {
    assert keys[..n + 1] == keys[..n] + [keys[n]];
  }

  lemma JudgedNext<K(!new)>(first: map<K, NodataStatus>, before: map<K, NodataStatus>, after: map<K, NodataStatus>,
                            round: Round<K>, n: nat)
    requires n < |round.keys| && Distinct(round.keys)
    requires JudgedTo(first, before, round, n) && JudgedKey(before, after, round, round.keys[n])
    ensures JudgedTo(first, after, round, n + 1)
  {
    forall k
      ensures Lookup(after, k) ==
              if k in round.keys[..n + 1] then StepEntry(Lookup(first, k), ViewOf(round, k)) else Lookup(first, k) {
      AmongFirst(round.keys, n, k);
    }
  }

  lemma MocksOfNext<K(!new)>(round: Round<K>, n: nat, first: map<K, NodataStatus>, before: map<K, NodataStatus>)
    requires n < |round.keys| && Distinct(round.keys) && JudgedTo(first, before, round, n)
    ensures MocksOf(round.keys[..n + 1], first, round) ==
            MocksOf(round.keys[..n], first, round) + MocksOfKey(round.keys[n], before, round)
  {
    var front := round.keys[..n + 1];
    assert front[..n] == round.keys[..n];
    AmongFirst(round.keys, n, round.keys[n]);
    assert Lookup(before, round.keys[n]) == Lookup(first, round.keys[n]);
  }

  class Judge<K(==, !new)> {
    var statusMap: map<K, NodataStatus>

    constructor ()
      ensures statusMap == map[]
    {
      statusMap := map[];
    }

    function LastTs(key: K): int
      reads this
    {
      LastTsOf(Lookup(statusMap, key))
    }

    method TurnOk(key: K, ts: int)
      modifies this
      ensures statusMap == old(statusMap)[key := NodataStatus(true, 0, ts)]
    {
      if key !in statusMap {
        statusMap := statusMap[key := NodataStatus(true, 0, ts)];
        return;
      }
      statusMap := statusMap[key := statusMap[key].(ok := true, cnt := 0, ts := ts)];
    }

    method TurnNodata(key: K, ts: int)
      modifies this
      ensures statusMap ==
              old(statusMap)[key :=
                  NodataStatus(false, (if key in old(statusMap) then old(statusMap)[key].cnt else 0) + 1, ts)]
    {
      if key !in statusMap {
        statusMap := statusMap[key := NodataStatus(false, 1, ts)];
        return;
      }
      var ns := statusMap[key];
      statusMap := statusMap[key := ns.(ok := false, cnt := ns.cnt + 1, ts := ts)];
    }

    /** One key of a round. */
    method JudgeKey(round: Round<K>, key: K) returns (mocks: seq<MockItem<K>>)
      requires key in round.keys
      modifies this
      ensures JudgedKey(old(statusMap), statusMap, round, key)
      ensures mocks == MocksOfKey(key, old(statusMap), round)
    {
      mocks := [];
      if key !in round.configs || key !in round.items {
        return;
      }
      var step, item := round.configs[key].step, round.items[key];
      var lastTs := round.now - GetTimeout(step);
      if !item.fetched || item.fetchTs < lastTs {
        return;
      }
      if FCompare(round.configs[key].mock, item.value) == 0 {
        if LastTs(key) + step <= round.now {
          TurnNodata(key, round.now);
          mocks := [MockItem(key, GenTs(round.now, step))];
        }
        return;
      }
      if item.ts < lastTs {
        if LastTs(key) + step <= round.now {
          TurnNodata(key, round.now);
          mocks := [MockItem(key, GenTs(round.now, step))];
        }
        return;
      }
      TurnOk(key, round.now);
    }

    /** Every key is judged on its own: no key's status depends on another's. */
    method JudgeRound(round: Round<K>) returns (mocks: seq<MockItem<K>>)
      requires Distinct(round.keys)
      modifies this
      ensures forall k :: Lookup(statusMap, k) == StepEntry(Lookup(old(statusMap), k), ViewOf(round, k))
      ensures mocks == MocksOf(round.keys, old(statusMap), round)
    {
      mocks := [];
      for i := 0 to |round.keys|
        invariant JudgedTo(old(statusMap), statusMap, round, i)
        invariant mocks == MocksOf(round.keys[..i], old(statusMap), round)
      {
        ghost var before := statusMap;
        var more := JudgeKey(round, round.keys[i]);
        JudgedNext(old(statusMap), before, statusMap, round, i);
        MocksOfNext(round, i, old(statusMap), before);
        mocks := mocks + more;
      }
      assert round.keys[..|round.keys|] == round.keys;
    }
  }

  // ----- runs of one key -----

  /** The status of a key after a run of rounds. */
  ghost function RunEntry(views: seq<View>): Option<NodataStatus> {
    if views == [] then None else StepEntry(RunEntry(views[..|views| - 1]), views[|views| - 1])
  }

  /** The mocks sent for a key over a run. */
  ghost function RunMocks(views: seq<View>): seq<int> {
    if views == [] then []
    else RunMocks(views[..|views| - 1]) + StepMock(RunEntry(views[..|views| - 1]), views[|views| - 1])
  }

  ghost predicate ClockRuns(views: seq<View>) {
    && (forall i :: 0 <= i < |views| ==> views[i].now >= 0)
    && (forall i, j :: 0 <= i < j < |views| ==> views[i].now <= views[j].now)
  }

  ghost predicate StepIs(views: seq<View>, step: int) {
    forall i :: 0 <= i < |views| ==> views[i].config.Some? ==> views[i].config.value.step == step
  }

  /** Aligned timestamps, each at least a step after the one before. */
  ghost predicate Spaced(mocks: seq<int>, step: int)
    requires step >= 1
  {
    && (forall i :: 0 <= i < |mocks| ==> Aligned(mocks[i], step))
    && (forall i, j :: 0 <= i < |mocks| && j == i + 1 < |mocks| ==> mocks[i] + step <= mocks[j])
  }

  /** The last mock was made no later than the last change of status, which lies in the past. */
  ghost predicate MockedBy(mocks: seq<int>, entry: Option<NodataStatus>, now: int, step: int)
    requires step >= 1
  {
    && (entry.Some? ==> 0 <= entry.value.ts <= now)
    && (mocks != [] ==> entry.Some? && mocks[|mocks| - 1] <= GenTs(entry.value.ts, step))
  }

  lemma LaterStatus(mocks: seq<int>, entry: Option<NodataStatus>, t: int, now: int, step: int)
    requires step >= 1 && MockedBy(mocks, entry, t, step) && t <= now
    ensures mocks != [] ==> mocks[|mocks| - 1] <= GenTs(now, step)
  {
    if mocks != [] {
      GenTsMonotone(entry.value.ts, now, step);
    }
  }

  lemma GenTsMonotone(t: int, now: int, step: int)
    requires step >= 1 && 0 <= t <= now
    ensures GenTs(t, step) <= GenTs(now, step)
  {
    GenTsPlace(t, step);
    GenTsPlace(now, step);
    if GenTs(now, step) < GenTs(t, step) {
      AlignedGap(GenTs(now, step), GenTs(t, step), step);
      assert false;
    }
  }

  lemma SpacedNext(mocks: seq<int>, mock: int, step: int)
    requires step >= 1 && Spaced(mocks, step) && Aligned(mock, step)
    requires mocks != [] ==> mocks[|mocks| - 1] + step <= mock
    ensures Spaced(mocks + [mock], step)
  {
  }

  lemma SpacedStep(mocks: seq<int>, entry: Option<NodataStatus>, t: int, v: View, step: int)
    requires step >= 1 && Spaced(mocks, step) && MockedBy(mocks, entry, t, step) && 0 <= t <= v.now
    requires v.config.Some? ==> v.config.value.step == step
    ensures Spaced(mocks + StepMock(entry, v), step)
    ensures MockedBy(mocks + StepMock(entry, v), StepEntry(entry, v), v.now, step)
  {
    match VerdictOn(entry, v)
    case Skip =>
      assert mocks + [] == mocks;
    case Good =>
      assert mocks + [] == mocks;
      LaterStatus(mocks, entry, t, v.now, step);
    case Mock =>
      GenTsPlace(v.now, step);
      if mocks != [] {
        GenTsSpaced(entry.value.ts, v.now, step);
      }
      SpacedNext(mocks, GenTs(v.now, step), step);
  }

  /** With a fixed positive step and a clock that never goes back, mocks are aligned and a step or more apart. */
  lemma {:induction false} StepsAreSpaced(views: seq<View>, step: int)
    requires step >= 1 && ClockRuns(views) && StepIs(views, step)
    ensures Spaced(RunMocks(views), step)
    ensures MockedBy(RunMocks(views), RunEntry(views), if views == [] then 0 else views[|views| - 1].now, step)
  {
    if views != [] {
      var front, v := views[..|views| - 1], views[|views| - 1];
      StepsAreSpaced(front, step);
      SpacedStep(RunMocks(front), RunEntry(front), if front == [] then 0 else front[|front| - 1].now, v, step);
    }
  }

  /** Every configuration has passed the check it is loaded through. */
  ghost predicate AllGuarded(views: seq<View>) {
    forall i :: 0 <= i < |views| ==> views[i].config.Some? ==> Guarded(views[i].config.value)
  }

  lemma {:induction false} UnconfiguredIsSilent(views: seq<View>)
    requires forall i :: 0 <= i < |views| ==> views[i].config.None?
    ensures RunMocks(views) == []
  {
    if views != [] {
      UnconfiguredIsSilent(views[..|views| - 1]);
    }
  }

  /** The check makes the step positive, or there is no configuration and no mock. */
  lemma GuardedRunsAreSpaced(views: seq<View>, step: int)
    requires ClockRuns(views) && StepIs(views, step) && AllGuarded(views)
    ensures RunMocks(views) == [] || (step >= 1 && Spaced(RunMocks(views), step))
  {
    if i :| 0 <= i < |views| && views[i].config.Some? {
      assert step >= 1;
      StepsAreSpaced(views, step);
    } else {
      UnconfiguredIsSilent(views);
    }
  }

  /** A mock made although the last sample was not a mock itself is newer than that sample. */
  lemma MockIsNewer(entry: Option<NodataStatus>, v: View)
    requires VerdictOn(entry, v).Mock? && v.config.value.step >= 1 && v.now >= 0
    requires !(-1.0 < (v.config.value.mock - v.item.value.value) * 1000000.0 < 1.0)
    ensures v.item.value.ts < StepMock(entry, v)[0] <= v.now - 2 * v.config.value.step
  {
    StaleMockIsNewer(v.now, v.config.value.step, v.item.value.ts);
  }

  // ----- when a key is good, when it is missing, and when a mock is sent -----

  /** Three steps, and at least three minutes. */
  function Patience(step: int): int {
    if 3 * step > 180 then 3 * step else 180
  }

  /** Configured, and collected no longer ago than that. */
  ghost predicate InTouch(v: View) {
    && v.config.Some? && v.item.Some? && v.item.value.fetched
    && v.now - v.item.value.fetchTs <= Patience(v.config.value.step)
  }

  /** The sample collected is a mock, to a millionth, or older than that. */
  ghost predicate Overdue(v: View) {
    && InTouch(v)
    && (-1.0 < (v.config.value.mock - v.item.value.value) * 1000000.0 < 1.0
        || v.now - v.item.value.ts > Patience(v.config.value.step))
  }

  /** The key is missing, and a step or more has passed since time `t`. */
  ghost predicate MockDue(t: int, v: View) {
    Overdue(v) && t + v.config.value.step <= v.now
  }

  /** The last round of the run that found the key good or sent a mock for it. */
  ghost function LastActed(views: seq<View>): int {
    if views == [] then 0
    else
      var t, v := LastActed(views[..|views| - 1]), views[|views| - 1];
      if (InTouch(v) && !Overdue(v)) || MockDue(t, v) then v.now else t
  }

  lemma VerdictIs(entry: Option<NodataStatus>, v: View)
    ensures VerdictOn(entry, v).Good? <==> InTouch(v) && !Overdue(v)
    ensures VerdictOn(entry, v).Mock? <==> MockDue(LastTsOf(entry), v)
  {
  }

  /** In every run a round sends a mock for a key, for its own time, if and only if the key is missing and a step or
      more has passed since the last round that found it good or sent a mock. */
  lemma {:induction false} MockIff(views: seq<View>, v: View)
    ensures LastTsOf(RunEntry(views)) == LastActed(views)
    ensures RunMocks(views + [v]) ==
            RunMocks(views) + if MockDue(LastActed(views), v) then [GenTs(v.now, v.config.value.step)] else []
    decreases |views|
  {
    if views != [] {
      var front, last := views[..|views| - 1], views[|views| - 1];
      MockIff(front, last);
      VerdictIs(RunEntry(front), last);
    }
    assert (views + [v])[..|views|] == views;
    VerdictIs(RunEntry(views), v);
  }

  /** The mocks of a run since the last round in which the key was good. */
  ghost function SinceGood(views: seq<View>): nat {
    if views == [] then 0
    else
      var front, v := views[..|views| - 1], views[|views| - 1];
      if InTouch(v) && !Overdue(v) then 0 else SinceGood(front) + if MockDue(LastActed(front), v) then 1 else 0
  }

  /** The counter counts the mocks since the key was last good, and the flag says whether there were none. */
  lemma {:induction false} CntIsSinceGood(views: seq<View>)
    ensures RunEntry(views).Some? ==> RunEntry(views).value.cnt == SinceGood(views)
    ensures RunEntry(views).Some? ==> (RunEntry(views).value.ok <==> SinceGood(views) == 0)
    ensures RunEntry(views).None? ==> SinceGood(views) == 0
  {
    if views != [] {
      var front, v := views[..|views| - 1], views[|views| - 1];
      CntIsSinceGood(front);
      MockIff(front, v);
      VerdictIs(RunEntry(front), v);
    }
  }

  /** Overdue in every round, at rounds a step or more apart. */
  ghost predicate OverdueRun(views: seq<View>, step: int) {
    views == [] ||
      var n := |views| - 1;
      && OverdueRun(views[..n], step) && Overdue(views[n]) && views[n].config.value.step == step
      && (if n == 0 then 0 else views[n - 1].now) + step <= views[n].now
  }

  /** While a key is overdue, every round a step or more after the last one sends its mock. */
  lemma {:induction false} OverdueRoundsMock(views: seq<View>, step: int)
    requires step >= 1 && OverdueRun(views, step)
    ensures |RunMocks(views)| == |views| && forall i :: 0 <= i < |views| ==>
            RunMocks(views)[i] == GenTs(views[i].now, step)
    ensures views != [] ==> LastTsOf(RunEntry(views)) == views[|views| - 1].now
  {
    if views != [] {
      var n := |views| - 1;
      OverdueRoundsMock(views[..n], step);
      OverdueMocks(RunEntry(views[..n]), views[n], step);
      forall i | 0 <= i < n ensures RunMocks(views)[i] == GenTs(views[i].now, step) {
        assert views[..n][i] == views[i];
      }
    }
  }

  lemma OverdueMocks(entry: Option<NodataStatus>, v: View, step: int)
    requires Overdue(v) && v.config.value.step == step && LastTsOf(entry) + step <= v.now
    ensures StepMock(entry, v) == [GenTs(v.now, step)] && LastTsOf(StepEntry(entry, v)) == v.now
  {
  }

  // ----- runs of the judge -----

  ghost function Views<K>(rounds: seq<Round<K>>, k: K): (r: seq<View>)
    ensures |r| == |rounds| && forall i :: 0 <= i < |r| ==> r[i] == ViewOf(rounds[i], k)
  {
    seq(|rounds|, i requires 0 <= i < |rounds| => ViewOf(rounds[i], k))
  }

  /** The timestamps sent for one key. */
  ghost function MocksFor<K>(sent: seq<MockItem<K>>, k: K): seq<int> {
    if sent == [] then []
    else MocksFor(sent[..|sent| - 1], k) + if sent[|sent| - 1].key == k then [sent[|sent| - 1].ts] else []
  }

  lemma {:induction false} MocksForConcat<K>(a: seq<MockItem<K>>, b: seq<MockItem<K>>, k: K)
    ensures MocksFor(a + b, k) == MocksFor(a, k) + MocksFor(b, k)
  {
    if b == [] {
      assert a + b == a;
    } else {
      MocksForConcat(a, b[..|b| - 1], k);
      assert (a + b)[..|a + b| - 1] == a + b[..|b| - 1];
    }
  }

  lemma MocksForKey<K>(k: K, status: map<K, NodataStatus>, round: Round<K>, other: K)
    ensures MocksFor(MocksOfKey(k, status, round), other) ==
         if k == other then StepMock(Lookup(status, k), ViewOf(round, k)) else []
  {
    var sent := MocksOfKey(k, status, round);
    if sent != [] {
      assert sent[..|sent| - 1] == [];
      assert MocksFor(sent, other) == [] + if k == other then [sent[0].ts] else [];
    }
  }

  lemma NotBefore<K>(keys: seq<K>)
    requires Distinct(keys) && keys != []
    ensures Distinct(keys[..|keys| - 1]) && keys[|keys| - 1] !in keys[..|keys| - 1]
    ensures forall k :: k in keys <==> k in keys[..|keys| - 1] || k == keys[|keys| - 1]
  {
    assert keys == keys[..|keys| - 1] + [keys[|keys| - 1]];
  }

  /** A round sends for a key what the key's own view calls for. */
  lemma {:induction false} RoundMocks<K>(keys: seq<K>, status: map<K, NodataStatus>, round: Round<K>, k: K)
    requires Distinct(keys)
    ensures MocksFor(MocksOf(keys, status, round), k) ==
            if k in keys then StepMock(Lookup(status, k), ViewOf(round, k)) else []
  {
    if keys != [] {
      var n, last := |keys| - 1, keys[|keys| - 1];
      NotBefore(keys);
      RoundMocks(keys[..n], status, round, k);
      MocksForConcat(MocksOf(keys[..n], status, round), MocksOfKey(last, status, round), k);
      MocksForKey(last, status, round, k);
    }
  }

  lemma NextMocks<K>(rounds: seq<Round<K>>, i: nat, status: map<K, NodataStatus>, sent: seq<MockItem<K>>, k: K)
    requires i < |rounds| && Distinct(rounds[i].keys)
    requires Lookup(status, k) == RunEntry(Views(rounds[..i], k))
             && MocksFor(sent, k) == RunMocks(Views(rounds[..i], k))
    ensures StepEntry(Lookup(status, k), ViewOf(rounds[i], k)) == RunEntry(Views(rounds[..i + 1], k))
    ensures MocksFor(sent + MocksOf(rounds[i].keys, status, rounds[i]), k) == RunMocks(Views(rounds[..i + 1], k))
  {
    assert Views(rounds[..i + 1], k)[..i] == Views(rounds[..i], k);
    MocksForConcat(sent, MocksOf(rounds[i].keys, status, rounds[i]), k);
    RoundMocks(rounds[i].keys, status, rounds[i], k);
  }

  /** The judge over a run of rounds does for each key exactly what that key's own views call for. */
  method Run<K(==, !new)>(rounds: seq<Round<K>>) returns (judge: Judge<K>, sent: seq<MockItem<K>>)
    requires forall i :: 0 <= i < |rounds| ==> Distinct(rounds[i].keys)
    ensures fresh(judge)
    ensures forall k :: Lookup(judge.statusMap, k) == RunEntry(Views(rounds, k))
    ensures forall k :: MocksFor(sent, k) == RunMocks(Views(rounds, k))
  {
    judge := new Judge<K>();
    sent := [];
    for i := 0 to |rounds|
      invariant fresh(judge)
      invariant forall k :: Lookup(judge.statusMap, k) == RunEntry(Views(rounds[..i], k))
      invariant forall k :: MocksFor(sent, k) == RunMocks(Views(rounds[..i], k))
    {
      ghost var status, before := judge.statusMap, sent;
      var mocks := judge.JudgeRound(rounds[i]);
      sent := sent + mocks;
      forall k ensures StepEntry(Lookup(status, k), ViewOf(rounds[i], k)) == RunEntry(Views(rounds[..i + 1], k))
                    && MocksFor(sent, k) == RunMocks(Views(rounds[..i + 1], k)) {
        NextMocks(rounds, i, status, before, k);
      }
    }
    assert rounds[..|rounds|] == rounds;
  }

  // ----- runs with the configurations of the database -----

  /** Each round sees the configurations loaded from the rows of its moment. */
  ghost predicate LoadedFrom(rounds: seq<Round<string>>, tables: seq<seq<Row>>) {
    |rounds| == |tables| && forall i :: 0 <= i < |rounds| ==> rounds[i].configs == Loaded(tables[i])
  }

  ghost predicate RoundsInTime(rounds: seq<Round<string>>) {
    && (forall i :: 0 <= i < |rounds| ==> rounds[i].now >= 0)
    && (forall i, j :: 0 <= i < j < |rounds| ==> rounds[i].now <= rounds[j].now)
  }

  lemma LoadedViewsAreGuarded(rounds: seq<Round<string>>, tables: seq<seq<Row>>, k: string)
    requires LoadedFrom(rounds, tables)
    ensures AllGuarded(Views(rounds, k))
  {
    forall i | 0 <= i < |rounds| && Views(rounds, k)[i].config.Some? ensures Guarded(Views(rounds, k)[i].config.value) {
      LoadedIsGuarded(tables[i], k);
    }
  }

  /** Whatever the database holds: while the key's configured step does not change, its mocks are aligned to that step
      and strictly increase by at least the step. */
  lemma MocksAreSpaced(rounds: seq<Round<string>>, tables: seq<seq<Row>>, k: string, step: int)
    requires LoadedFrom(rounds, tables) && RoundsInTime(rounds) && StepIs(Views(rounds, k), step)
    ensures var mocks := RunMocks(Views(rounds, k)); mocks == [] || (step >= 1 && Spaced(mocks, step))
  {
    LoadedViewsAreGuarded(rounds, tables, k);
    GuardedRunsAreSpaced(Views(rounds, k), step);
  }
}
