/** Reading back what was accepted: the cache that any run of arrivals, flushes and sends leaves has the shape that a
    query (modules/graph/api/graph.go) asks of its samples, when transfer aligned them (modules/transfer/sender). */
module GraphRead {
  import opened Clock
  import opened GraphFlow
  import opened GraphItems
  import opened GraphQuery
  import opened GraphStore
  import opened Options
  import opened Seqs

  /** Every sample that arrives for the key is aligned to the key's step. */
  ghost predicate AlignedArrivals<K>(steps: seq<Step<K>>, key: K, step: int)
    requires step >= 1
  {
    forall n :: 0 <= n < |steps| && steps[n].Receive? && steps[n].arrival.key == key ==>
      Aligned(steps[n].arrival.item.ts, step)
  }

  ghost predicate AllAligned(items: multiset<GraphItem>, step: int)
    requires step >= 1
  {
    forall item :: item in items ==> Aligned(item.ts, step)
  }

  lemma NextAccepted<K>(s: State<K>, step: Step<K>, key: K)
    ensures var before, after := AcceptedOf(s.accepted, key), AcceptedOf(Next(s, step).accepted, key);
            after == before
                || (step.Receive? && step.arrival.key == key && after == before + multiset{step.arrival.item})
  {
    if step.Receive? {
      AcceptedNext(s.accepted, (step.arrival.key, step.arrival.item), key);
    }
  }

  lemma {:induction false} AcceptedAligned<K>(steps: seq<Step<K>>, key: K, step: int)
    requires step >= 1 && AlignedArrivals(steps, key, step)
    ensures AllAligned(AcceptedOf(Run(steps).accepted, key), step)
  {
    if steps != [] {
      var init, last := steps[..|steps| - 1], steps[|steps| - 1];
      AcceptedAligned(init, key, step);
      NextAccepted(Run(init), last, key);
    }
  }

  lemma ReversedIncreasing(l: seq<GraphItem>)
    ensures Increasing(Reversed(l)) <==> Decreasing(l)
  {
    if Increasing(Reversed(l)) {
      forall i, j | 0 <= i < j < |l| ensures l[j].ts < l[i].ts {
        assert Reversed(l)[|l| - 1 - j] == l[j] && Reversed(l)[|l| - 1 - i] == l[i];
      }
    }
  }

  lemma ReversedAligned(l: seq<GraphItem>, step: int)
    requires step >= 1 && AllAligned(multiset(l), step)
    ensures forall i :: 0 <= i < |l| ==> Aligned(Reversed(l)[i].ts, step)
  {
    forall i | 0 <= i < |l| ensures Aligned(Reversed(l)[i].ts, step) {
      assert l[|l| - 1 - i] in multiset(l);
    }
  }

  /** Whatever the run, the cached samples of a key are aligned when all its arrivals are. */
  lemma CachedIsAligned<K>(steps: seq<Step<K>>, key: K, step: int)
    requires step >= 1 && AlignedArrivals(steps, key, step)
    ensures AllAligned(ResidentOf(Run(steps).store, key), step)
    ensures forall i :: 0 <= i < |Batch(Run(steps).store, key)| ==> Aligned(Batch(Run(steps).store, key)[i].ts, step)
  {
    AcceptedAligned(steps, key, step);
    SamplesConserved(steps, key);
    var s := Run(steps);
    assert ResidentOf(s.store, key) <= AcceptedOf(s.accepted, key);
    if key in s.store {
      ReversedAligned(s.store[key].items, step);
    }
  }

  ghost predicate InOrder<K>(c: Flat<K>, key: K) {
    key in c ==> Decreasing(c[key].items)
  }

  lemma BatchOrder<K>(c: Flat<K>, key: K)
    ensures Increasing(Batch(c, key)) <==> InOrder(c, key)
  {
    if key in c {
      ReversedIncreasing(c[key].items);
    }
  }

  /** They are what a query expects exactly when the list is in order. */
  lemma CachedIsSampledIff<K>(steps: seq<Step<K>>, key: K, step: int)
    requires step >= 1 && AlignedArrivals(steps, key, step)
    ensures Sampled(Batch(Run(steps).store, key), step) <==> InOrder(Run(steps).store, key)
  {
    CachedIsAligned(steps, key, step);
    BatchOrder(Run(steps).store, key);
  }

  // ----- which runs keep every cached gauge readable -----

  ghost predicate AllOnce(items: multiset<GraphItem>) {
    forall x :: items[x] <= 1
  }

  lemma OnceIsDistinct(l: seq<GraphItem>, i: nat, j: nat)
    requires AllOnce(multiset(l)) && i < j < |l|
    ensures l[i] != l[j]
  {
    var front, back := l[..j], l[j..];
    assert l == front + back;
    assert multiset(l) == multiset(front) + multiset(back);
    assert l[i] in front by { assert front[i] == l[i]; }
    assert l[j] in back by { assert back[0] == l[j]; }
    assert multiset(l)[l[i]] == multiset(front)[l[i]] + multiset(back)[l[i]];
  }

  lemma {:induction false} AcceptedGrows<K>(steps: seq<Step<K>>, n: nat, key: K)
    requires n <= |steps|
    ensures AcceptedOf(Run(steps[..n]).accepted, key) <= AcceptedOf(Run(steps).accepted, key)
  {
    if n < |steps| {
      var init := steps[..|steps| - 1];
      assert init[..n] == steps[..n];
      AcceptedGrows(init, n, key);
      NextAccepted(Run(init), steps[|steps| - 1], key);
    } else {
      assert steps[..n] == steps;
    }
  }

  /** A key's samples arrive aligned, and no sample is accepted twice. */
  ghost predicate RegularArrivals<K>(steps: seq<Step<K>>, key: K, step: int)
    requires step >= 1
  {
    AlignedArrivals(steps, key, step) && AllOnce(AcceptedOf(Run(steps).accepted, key))
  }

  lemma RegularPrefix<K>(steps: seq<Step<K>>, n: nat, key: K, step: int)
    requires step >= 1 && n <= |steps| && RegularArrivals(steps, key, step)
    ensures RegularArrivals(steps[..n], key, step)
  {
    AcceptedGrows(steps, n, key);
    var all, some := AcceptedOf(Run(steps).accepted, key), AcceptedOf(Run(steps[..n]).accepted, key);
    forall x ensures some[x] <= 1 {
      assert all[x] <= 1;
    }
  }

  lemma CachedIsDistinct<K>(steps: seq<Step<K>>, key: K)
    requires AllOnce(AcceptedOf(Run(steps).accepted, key))
    ensures DistinctSamples(Batch(Run(steps).store, key))
  {
    SamplesConserved(steps, key);
    BatchMultiset(Run(steps).store, key);
    var items, all := Batch(Run(steps).store, key), AcceptedOf(Run(steps).accepted, key);
    assert multiset(items) <= all;
    forall x ensures multiset(items)[x] <= 1 {
      assert all[x] <= 1;
    }
    forall i, j | 0 <= i < j < |items| ensures items[i] != items[j] {
      OnceIsDistinct(items, i, j);
    }
  }

  /** After a run, all cached gauges of a key are reported if and only if its list is in order. */
  lemma ReportedIff<K>(steps: seq<Step<K>>, key: K, step: int)
    requires step >= 1 && RegularArrivals(steps, key, step)
    ensures AllGaugesReported(Batch(Run(steps).store, key), step) <==> InOrder(Run(steps).store, key)
  {
    var c := Run(steps).store;
    CachedIsDistinct(steps, key);
    CachedIsAligned(steps, key, step);
    AlignedIsOnGrid(Batch(c, key), step);
    GaugesCompleteIff(Batch(c, key), step);
    BatchOrder(c, key);
  }

  /** After every step of the run, all cached gauges of all keys are reported. */
  ghost predicate AlwaysReported<K(!new)>(steps: seq<Step<K>>, stepOf: K -> int)
    requires forall k :: stepOf(k) >= 1
  {
    forall n, k :: 0 <= n <= |steps| ==> AllGaugesReported(Batch(Run(steps[..n]).store, k), stepOf(k))
  }

  /** Every cached gauge is readable at every moment of the run if and only if no failing send puts samples before older
      ones. */
  lemma ReadableIff<K(!new)>(steps: seq<Step<K>>, stepOf: K -> int)
    requires forall k :: stepOf(k) >= 1 && RegularArrivals(steps, k, stepOf(k))
    ensures AlwaysReported(steps, stepOf) <==> FailsInOrder(steps)
  {
    forall n, k | 0 <= n <= |steps|
      ensures AllGaugesReported(Batch(Run(steps[..n]).store, k), stepOf(k)) <==> InOrder(Run(steps[..n]).store, k)
    {
      RegularPrefix(steps, n, k, stepOf(k));
      ReportedIff(steps[..n], k, stepOf(k));
    }
    OrderIff(steps);
    if AlwaysReported(steps, stepOf) {
      forall n | 0 <= n <= |steps| ensures AllDecreasing(Run(steps[..n]).store) {
        forall k | k in Run(steps[..n]).store ensures Decreasing(Run(steps[..n]).store[k].items) {
          assert AllGaugesReported(Batch(Run(steps[..n]).store, k), stepOf(k));
        }
      }
    }
  }

  /** After a send that failed over an older sample, neither of the two cached samples is reported. */
  lemma LateSamplesAreUnread<K(!new)>(key: K, early: GraphItem, late: GraphItem, step: int, t: int)
    requires step >= 1 && late.ts < early.ts
    ensures var items := Batch(Run(LateSteps(key, early, late) + [Fail(0)]).store, key);
            items == [early, late] && CachedAt(items, GAUGE, step, t) == None
  {
    var before := LateSteps(key, early, late);
    LateState(key, early, late);
    LatePutBack(Run(before), key, early, late);
    RunNext(before, Fail(0));
    assert Reversed([late, early]) == [early, late];
    NothingOfBackward([early, late], step, t);
  }

  /** Every sample of the list inside the window is among the values. */
  ghost predicate AllReadBack<K(!new)>(values: seq<Point>, c: Flat<K>, key: K, startTs: int, endTs: int) {
    forall item :: key in c && item in c[key].items && startTs <= item.ts <= endTs ==>
      Point(item.ts, Some(item.value)) in values
  }

  lemma ReadsBackAll<K(!new)>(values: seq<Point>, c: Flat<K>, key: K, startTs: int, endTs: int)
    requires ReadsBack(values, Batch(c, key), startTs, endTs)
    ensures AllReadBack(values, c, key, startTs, endTs)
  {
    forall item | key in c && item in c[key].items && startTs <= item.ts <= endTs
      ensures Point(item.ts, Some(item.value)) in values
    {
      var l := c[key].items;
      var i :| 0 <= i < |l| && l[i] == item;
      assert Batch(c, key)[|l| - 1 - i] == item;
    }
  }

  /** The query merges, rather than returning the fetched data or nothing. */
  predicate Merges(series: Series, startTs: int, endTs: int, nowTs: int)
    requires series.step >= 1
  {
    !EmptyWindow(startTs, endTs, series.step) && !Consolidated(startTs, series.step, nowTs)
  }

  /** What a merged query says of a key's list: in every slot the cache, as far as it is reported, over the fetched
      data; the rates, fetched values and gauges that are read back; and all gauges, when the list is in order. */
  ghost predicate StoredAnswer<K(!new)>(values: seq<Point>, c: Flat<K>, key: K, series: Series, datas: seq<Point>,
                                        startTs: int, endTs: int)
    requires series.step >= 1
  {
    && Slots(values, series, startTs, endTs)
    && Answers(values, Batch(c, key), datas, series)
    && ReadBack(values, Batch(c, key), datas, series, startTs, endTs)
    && (series.dsType == GAUGE && InOrder(c, key) ==> AllReadBack(values, c, key, startTs, endTs))
  }

  lemma MergedIsStored<K(!new)>(values: seq<Point>, steps: seq<Step<K>>, key: K, series: Series, datas: seq<Point>,
                                startTs: int, endTs: int)
    requires series.step >= 1 && AlignedArrivals(steps, key, series.step) && startTs <= endTs
    requires Batch(Run(steps).store, key) != []
    requires Fetched(datas, Batch(Run(steps).store, key), series.step, startTs, endTs)
    requires MergedResult(values, Batch(Run(steps).store, key), datas, series, startTs, endTs)
    ensures StoredAnswer(values, Run(steps).store, key, series, datas, startTs, endTs)
  {
    CachedIsAligned(steps, key, series.step);
    CachedIsSampledIff(steps, key, series.step);
    if ReadsBack(values, Batch(Run(steps).store, key), startTs, endTs) {
      ReadsBackAll(values, Run(steps).store, key, startTs, endTs);
    }
  }

  /** A query on the store that any run of aligned arrivals left. */
  method QueryStored<K(==, !new)>(store: GraphItemMap<K>, key: K, start: int, end: int, series: Series,
                                  datas: seq<Point>, nowTs: int, ghost steps: seq<Step<K>>) returns (values: seq<Point>)
    requires store.Valid() && series.step >= 1 && store.Contents() == Run(steps).store
    ensures var items := Batch(store.Contents(), key);
            var startTs, endTs := WindowStart(start, series.step), WindowEnd(end, series.step);
            && AlignedArrivals(steps, key, series.step) && Merges(series, startTs, endTs, nowTs) && items != []
            && Fetched(datas, items, series.step, startTs, endTs) ==>
              StoredAnswer(values, store.Contents(), key, series, datas, startTs, endTs)
  {
    var items, flag := store.FetchAll(key);
    values := Query(start, end, Some(series), items, datas, nowTs);
    ghost var startTs, endTs := WindowStart(start, series.step), WindowEnd(end, series.step);
    if AlignedArrivals(steps, key, series.step) && Merges(series, startTs, endTs, nowTs) && items != []
       && Fetched(datas, items, series.step, startTs, endTs)
    {
      MergedIsStored(values, steps, key, series, datas, startTs, endTs);
    }
  }
}
