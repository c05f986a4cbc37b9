/** The merge block of graph's Query call (modules/graph/api/graph.go): cached samples are expanded
    to a step grid, spliced onto the data read from the RRD file, and cut to the answer window.
    NaN is `None`. What rrdtool.Fetch returns is an argument. */
module GraphQuery {
  import opened GraphItems
  import opened Options
  import opened Clock

  datatype Point = Point(ts: int, value: Option<real>)
  datatype Series = Series(dsType: string, step: int)

  const GAUGE := "GAUGE"
  const DERIVE := "DERIVE"
  const COUNTER := "COUNTER"
  const RRA1_POINT_CNT := 720

  predicate IsRate(dsType: string) {
    dsType == DERIVE || dsType == COUNTER
  }

  // ----- what a sequence of samples or points says about one timestamp -----

  function ItemAt(items: seq<GraphItem>, t: int): Option<real> {
    if items == [] then None
    else if items[0].ts == t then Some(items[0].value)
    else ItemAt(items[1..], t)
  }

  function PointAt(ps: seq<Point>, t: int): Option<real> {
    if ps == [] then None
    else if ps[0].ts == t then ps[0].value
    else PointAt(ps[1..], t)
  }

  /** The rate between two neighbouring counter samples; a falling counter gives NaN. */
  function Rate(earlier: GraphItem, later: GraphItem, step: int): Option<real>
    requires step >= 1
  {
    var r := (later.value - earlier.value) / step as real;
    if r < 0.0 then None else Some(r)
  }

  /** The rates of the leading run of samples that are exactly one step apart. */
  function RateAt(items: seq<GraphItem>, step: int, t: int): Option<real>
    requires step >= 1
  {
    if |items| < 2 || items[1].ts != items[0].ts + step then None
    else if items[0].ts == t then Rate(items[0], items[1], step)
    else RateAt(items[1..], step, t)
  }

  /** A sample later than the one before it, by a whole number of steps. */
  predicate Onward(earlier: GraphItem, later: GraphItem, step: int)
    requires step >= 1
  {
    earlier.ts < later.ts && (later.ts - earlier.ts) % step == 0
  }

  /** The values of the leading samples, as long as each is onward of the one before. */
  function LeadAt(items: seq<GraphItem>, step: int, t: int): Option<real>
    requires step >= 1
  {
    if items == [] then None
    else if items[0].ts == t then Some(items[0].value)
    else if |items| > 1 && Onward(items[0], items[1], step) then LeadAt(items[1..], step, t)
    else None
  }

  /** What the cache contributes to the answer at time `t`, in whatever order its samples are: nothing behind the last
      one, and before it the leading samples alone. */
  function CachedAt(items: seq<GraphItem>, dsType: string, step: int, t: int): Option<real>
    requires step >= 1
  {
    if items == [] then None
    else if IsRate(dsType) then if t < items[|items| - 1].ts then RateAt(items, step, t) else None
    else if dsType == GAUGE then if t <= items[|items| - 1].ts then LeadAt(items, step, t) else None
    else None
  }

  function InWindow(ps: seq<Point>, startTs: int, endTs: int): (r: seq<Point>)
    ensures forall p :: p in r <==> p in ps && startTs <= p.ts <= endTs
  {
    if ps == [] then []
    else if startTs <= ps[0].ts <= endTs then [ps[0]] + InWindow(ps[1..], startTs, endTs)
    else InWindow(ps[1..], startTs, endTs)
  }

  // ----- shapes of the inputs -----

  /** What transfer's alignTs and the store's order give: aligned, strictly increasing samples. */
  ghost predicate Sampled(items: seq<GraphItem>, step: int)
    requires step >= 1
  {
    Increasing(items) && forall i :: 0 <= i < |items| ==> Aligned(items[i].ts, step)
  }

  /** What transfer's alignTs gives, in whatever order the samples are. */
  ghost predicate Rooted(items: seq<GraphItem>, step: int)
    requires step >= 1
  {
    items != [] && Aligned(items[0].ts, step)
  }

  /** Aligned points, each one step after the one before it. */
  ghost predicate Steps(ps: seq<Point>, step: int)
    requires step >= 1
  {
    && (ps != [] ==> Aligned(ps[0].ts, step))
    && forall i, j :: 0 <= i && j == i + 1 && j < |ps| ==> ps[j].ts == ps[i].ts + step
  }

  /** The RRD data has no holes and does not begin inside the window after the first cached sample. */
  ghost predicate Fetched(datas: seq<Point>, items: seq<GraphItem>, step: int, startTs: int, endTs: int)
    requires step >= 1 && items != []
  {
    && Steps(datas, step)
    && (datas != [] ==> datas[0].ts <= startTs || datas[0].ts <= items[0].ts || endTs < datas[0].ts)
  }

  ghost predicate PointsIncreasing(ps: seq<Point>) {
    forall i, j :: 0 <= i < j < |ps| ==> ps[i].ts < ps[j].ts
  }

  // ----- lemmas on lookups -----

  lemma {:induction false} StepsIncreasing(ps: seq<Point>, step: int)
    requires step >= 1 && Steps(ps, step)
    ensures PointsIncreasing(ps)
    ensures forall i :: 0 <= i < |ps| ==> Aligned(ps[i].ts, step)
  {
    if ps != [] {
      var init, last := ps[..|ps| - 1], |ps| - 1;
      StepsIncreasing(init, step);
      if init != [] {
        assert ps[last].ts == ps[last - 1].ts + step;
        assert ps[last - 1] == init[last - 1];
        AlignedNext(ps[last - 1].ts, step);
        forall i | 0 <= i < last ensures ps[i].ts < ps[last].ts && Aligned(ps[i].ts, step) {
          assert ps[i] == init[i];
        }
      }
      forall i, j | 0 <= i < j < |ps| ensures ps[i].ts < ps[j].ts {
        assert ps[i] == init[i];
        if j < last { assert ps[j] == init[j]; }
      }
    }
  }

  lemma {:induction false} PointAtAbsent(ps: seq<Point>, t: int)
    requires forall i :: 0 <= i < |ps| ==> ps[i].ts != t
    ensures PointAt(ps, t) == None
  {
    if ps != [] {
      PointAtAbsent(ps[1..], t);
    }
  }

  lemma {:induction false} PointAtIndex(ps: seq<Point>, k: nat)
    requires k < |ps| && PointsIncreasing(ps)
    ensures PointAt(ps, ps[k].ts) == ps[k].value
  {
    if k > 0 {
      assert ps[k] == ps[1..][k - 1];
      PointAtIndex(ps[1..], k - 1);
    }
  }

  lemma {:induction false} PointAtFound(ps: seq<Point>, t: int)
    ensures PointAt(ps, t).Some? ==> Point(t, PointAt(ps, t)) in ps
  {
    if ps != [] {
      PointAtFound(ps[1..], t);
    }
  }

  lemma {:induction false} PointAtAppend(ps: seq<Point>, p: Point, t: int)
    requires forall i :: 0 <= i < |ps| ==> ps[i].ts != p.ts
    ensures PointAt(ps + [p], t) == if t == p.ts then p.value else PointAt(ps, t)
  {
    if ps != [] {
      assert (ps + [p])[1..] == ps[1..] + [p];
      PointAtAppend(ps[1..], p, t);
    }
  }

  lemma {:induction false} PointAtUpdate(ps: seq<Point>, k: nat, p: Point, t: int)
    requires k < |ps| && PointsIncreasing(ps) && ps[k].ts == p.ts
    ensures PointAt(ps[k := p], t) == if t == p.ts then p.value else PointAt(ps, t)
  {
    if k > 0 {
      assert ps[k := p][1..] == ps[1..][k - 1 := p];
      PointAtUpdate(ps[1..], k - 1, p, t);
    }
  }

  /** A value found is the value of a sample with that timestamp, and a sample's timestamp finds a value. */
  lemma {:induction false} ItemAtFound(items: seq<GraphItem>, t: int)
    ensures ItemAt(items, t).Some? ==> GraphItem(t, ItemAt(items, t).value) in items
    ensures ItemAt(items, t).None? ==> forall i :: 0 <= i < |items| ==> items[i].ts != t
  {
    if items != [] {
      ItemAtFound(items[1..], t);
    }
  }

  lemma {:induction false} InWindowAt(ps: seq<Point>, startTs: int, endTs: int, t: int)
    requires startTs <= t <= endTs
    ensures PointAt(InWindow(ps, startTs, endTs), t) == PointAt(ps, t)
  {
    if ps != [] {
      InWindowAt(ps[1..], startTs, endTs, t);
    }
  }

  lemma RestSteps(ps: seq<Point>, step: int)
    requires step >= 1 && Steps(ps, step) && ps != []
    ensures Steps(ps[1..], step)
    ensures |ps| > 1 ==> ps[1].ts == ps[0].ts + step
  {
    if |ps| > 1 {
      AlignedNext(ps[0].ts, step);
      assert ps[1].ts == ps[0].ts + step;
    }
    forall i, j | 0 <= i && j == i + 1 && j < |ps[1..]| ensures ps[1..][j].ts == ps[1..][i].ts + step {
      assert ps[1..][i] == ps[i + 1] && ps[1..][j] == ps[j + 1];
    }
  }

  lemma FirstSteps(p: Point, ps: seq<Point>, step: int)
    requires step >= 1 && Steps(ps, step) && Aligned(p.ts, step) && (ps != [] ==> ps[0].ts == p.ts + step)
    ensures Steps([p] + ps, step)
  {
    var all := [p] + ps;
    forall i, j | 0 <= i && j == i + 1 && j < |all| ensures all[j].ts == all[i].ts + step {
      assert all[j] == ps[i];
    }
  }

  /** The window's part of gap-free data is gap-free, and begins at the window or at the data's own start. */
  lemma {:induction false} InWindowSteps(ps: seq<Point>, step: int, startTs: int, endTs: int)
    requires step >= 1 && Steps(ps, step) && Aligned(startTs, step)
    ensures var w := InWindow(ps, startTs, endTs);
            Steps(w, step) && (w != [] ==> w[0].ts == if ps[0].ts <= startTs then startTs else ps[0].ts)
  {
    if ps != [] {
      var rest := ps[1..];
      RestSteps(ps, step);
      InWindowSteps(rest, step, startTs, endTs);
      if ps[0].ts < startTs {
        AlignedGap(ps[0].ts, startTs, step);
      } else if ps[0].ts <= endTs {
        FirstSteps(ps[0], InWindow(rest, startTs, endTs), step);
      }
    }
  }

  // ----- soundness and completeness of the rates -----

  /** Samples `k` and `k+1` are one step apart and the counter did not fall. */
  predicate RatedPair(items: seq<GraphItem>, step: int, k: nat)
    requires step >= 1 && k + 1 < |items|
  {
    items[k + 1].ts == items[k].ts + step && items[k + 1].value >= items[k].value
  }

  /** Samples 0 to `n` are each one step after the one before. */
  ghost predicate LeadingRun(items: seq<GraphItem>, step: int, n: int) {
    forall i, j :: 0 <= i && j == i + 1 && j <= n && j < |items| ==> items[j].ts == items[i].ts + step
  }

  lemma RateSign(earlier: GraphItem, later: GraphItem, step: int)
    requires step >= 1
    ensures Rate(earlier, later, step).Some? <==> later.value >= earlier.value
    ensures Rate(earlier, later, step).Some? ==>
              Rate(earlier, later, step).value * step as real == later.value - earlier.value
  {
    var d, s := later.value - earlier.value, step as real;
    assert (d / s) * s == d;
  }

  /** Every rate reported is the difference of two samples one step apart, divided by the step. */
  lemma {:induction false} RateSound(items: seq<GraphItem>, step: int, t: int) returns (k: nat)
    requires step >= 1 && RateAt(items, step, t).Some?
    ensures k + 1 < |items| && items[k].ts == t && RatedPair(items, step, k)
    ensures RateAt(items, step, t) == Rate(items[k], items[k + 1], step)
    ensures LeadingRun(items, step, k + 1)
  {
    if items[0].ts == t {
      RateSign(items[0], items[1], step);
      k := 0;
    } else {
      var rest := items[1..];
      k := RateSound(rest, step, t);
      k := k + 1;
      forall i, j | 0 <= i && j == i + 1 && j <= k + 1 && j < |items| ensures items[j].ts == items[i].ts + step {
        if i > 0 {
          assert rest[i - 1] == items[i] && rest[j - 1] == items[j];
        }
      }
    }
  }

  /** Samples 0 to `n` are each onward of the one before. */
  ghost predicate Lead(items: seq<GraphItem>, step: int, n: int)
    requires step >= 1
  {
    forall i, j :: 0 <= i && j == i + 1 && j <= n && j < |items| ==> Onward(items[i], items[j], step)
  }

  lemma RunIsLead(items: seq<GraphItem>, step: int, n: int)
    requires step >= 1 && LeadingRun(items, step, n)
    ensures Lead(items, step, n)
  {
    MultipleIsAligned(1, step);
  }

  lemma LeadTail(items: seq<GraphItem>, step: int, n: int)
    requires step >= 1 && |items| > 1 && Onward(items[0], items[1], step)
    ensures Lead(items, step, n) <==> Lead(items[1..], step, n - 1)
  {
    var rest := items[1..];
    if Lead(rest, step, n - 1) {
      forall i, j | 0 <= i && j == i + 1 && j <= n && j < |items| ensures Onward(items[i], items[j], step) {
        if i > 0 {
          assert rest[i - 1] == items[i] && rest[j - 1] == items[j];
        }
      }
    }
  }

  lemma {:induction false} LeadIncreases(items: seq<GraphItem>, step: int, i: nat, k: nat)
    requires step >= 1 && i < k < |items| && Lead(items, step, k)
    ensures items[i].ts < items[k].ts && Aligned(items[k].ts - items[i].ts, step)
  {
    if i < k - 1 {
      LeadIncreases(items, step, i, k - 1);
      AlignedSum(items[k].ts - items[k - 1].ts, items[k - 1].ts - items[i].ts, step);
    }
  }

  lemma {:induction false} RateInLeadingRun(items: seq<GraphItem>, step: int, k: nat)
    requires step >= 1 && k + 1 < |items| && LeadingRun(items, step, k + 1)
    ensures RateAt(items, step, items[k].ts) == Rate(items[k], items[k + 1], step)
  {
    if k > 0 {
      assert items[1].ts == items[0].ts + step;
      RunIsLead(items, step, k);
      LeadIncreases(items, step, 0, k);
      RateInLeadingRun(items[1..], step, k - 1);
    }
  }

  /** The rates reported for any list: those of its leading pairs one step apart, before its last sample. */
  lemma RateIff(items: seq<GraphItem>, dsType: string, step: int, t: int, r: real)
    requires step >= 1 && items != [] && IsRate(dsType)
    ensures CachedAt(items, dsType, step, t) == Some(r) <==>
            t < items[|items| - 1].ts
            && exists k :: && 0 <= k && k + 1 < |items| && items[k].ts == t
                           && LeadingRun(items, step, k + 1) && Rate(items[k], items[k + 1], step) == Some(r)
  {
    if RateAt(items, step, t).Some? {
      var k := RateSound(items, step, t);
    }
    if k :| 0 <= k && k + 1 < |items| && items[k].ts == t && LeadingRun(items, step, k + 1)
            && Rate(items[k], items[k + 1], step) == Some(r)
    {
      RateInLeadingRun(items, step, k);
    }
  }

  /** No pair of samples that has a rate comes after a gap. */
  ghost predicate NoRateAfterGap(items: seq<GraphItem>, step: int)
    requires step >= 1
  {
    forall i, k :: 0 <= i < k && k + 1 < |items| && RatedPair(items, step, k) ==> items[i + 1].ts == items[i].ts + step
  }

  /** Every pair of samples that has a rate is reported. */
  ghost predicate AllRatesReported(items: seq<GraphItem>, step: int)
    requires step >= 1
  {
    forall k :: 0 <= k && k + 1 < |items| && RatedPair(items, step, k) ==>
      RateAt(items, step, items[k].ts) == Rate(items[k], items[k + 1], step)
  }

  /** The expansion stops at the first gap, so it is complete exactly when nothing has a rate after a gap. */
  lemma RatesCompleteIff(items: seq<GraphItem>, step: int)
    requires step >= 1 && Increasing(items)
    ensures AllRatesReported(items, step) <==> NoRateAfterGap(items, step)
  {
    if NoRateAfterGap(items, step) {
      forall k | 0 <= k && k + 1 < |items| && RatedPair(items, step, k)
        ensures RateAt(items, step, items[k].ts) == Rate(items[k], items[k + 1], step)
      {
        RateInLeadingRun(items, step, k);
      }
    }
    if AllRatesReported(items, step) {
      forall i, k | 0 <= i < k && k + 1 < |items| && RatedPair(items, step, k)
        ensures items[i + 1].ts == items[i].ts + step
      {
        RateSign(items[k], items[k + 1], step);
        var k' := RateSound(items, step, items[k].ts);
        assert k' == k;
        assert items[i + 1].ts == items[i].ts + step;
      }
    }
  }

  /** After one missed sample the later rates are lost, although their samples are in the cache. */
  lemma RatesLostAfterGap(items: seq<GraphItem>)
    requires items == [GraphItem(60, 1.0), GraphItem(120, 2.0), GraphItem(240, 3.0), GraphItem(300, 4.0)]
    ensures Sampled(items, 60) && RatedPair(items, 60, 2) && !AllRatesReported(items, 60)
  {
    assert RatedPair(items, 60, 2) && items[1 + 1].ts != items[1].ts + 60;
    assert !NoRateAfterGap(items, 60);
    RatesCompleteIff(items, 60);
  }

  // ----- soundness and completeness of the gauges -----

  /** Every gauge value reported is that of a sample that is reached. */
  lemma {:induction false} LeadSound(items: seq<GraphItem>, step: int, t: int) returns (k: nat)
    requires step >= 1 && LeadAt(items, step, t).Some?
    ensures k < |items| && items[k].ts == t && Lead(items, step, k)
    ensures LeadAt(items, step, t) == Some(items[k].value)
  {
    k := 0;
    if items[0].ts != t {
      k := LeadSound(items[1..], step, t);
      k := k + 1;
      LeadTail(items, step, k);
    }
  }

  lemma {:induction false} LeadReached(items: seq<GraphItem>, step: int, k: nat)
    requires step >= 1 && k < |items| && Lead(items, step, k)
    ensures LeadAt(items, step, items[k].ts) == Some(items[k].value)
  {
    if k > 0 {
      LeadIncreases(items, step, 0, k);
      assert Onward(items[0], items[1], step);
      LeadTail(items, step, k);
      LeadReached(items[1..], step, k - 1);
    }
  }

  /** Sample `k` is expanded: all before it lead up to it, and the last sample is not before it. */
  ghost predicate Reached(items: seq<GraphItem>, step: int, k: nat)
    requires step >= 1 && k < |items|
  {
    Lead(items, step, k) && items[k].ts <= items[|items| - 1].ts
  }

  /** For any list, a gauge value is reported if and only if it is that of a sample that is reached. */
  lemma GaugeIff(items: seq<GraphItem>, step: int, t: int, value: real)
    requires step >= 1
    ensures CachedAt(items, GAUGE, step, t) == Some(value) <==>
            exists k :: 0 <= k < |items| && items[k] == GraphItem(t, value) && Reached(items, step, k)
  {
    if CachedAt(items, GAUGE, step, t) == Some(value) {
      var k := LeadSound(items, step, t);
    }
    if k :| 0 <= k < |items| && items[k] == GraphItem(t, value) && Reached(items, step, k) {
      LeadReached(items, step, k);
    }
  }

  /** Every gauge sample is reported with its own timestamp and value. */
  ghost predicate AllGaugesReported(items: seq<GraphItem>, step: int)
    requires step >= 1
  {
    forall k :: 0 <= k < |items| ==> CachedAt(items, GAUGE, step, items[k].ts) == Some(items[k].value)
  }

  /** On the grid that begins at the first sample. */
  ghost predicate OnGrid(items: seq<GraphItem>, step: int)
    requires step >= 1
  {
    forall k :: 0 <= k < |items| ==> Aligned(items[k].ts - items[0].ts, step)
  }

  lemma OrderedIsLead(items: seq<GraphItem>, step: int)
    requires step >= 1
    ensures Increasing(items) && OnGrid(items, step) <==> Lead(items, step, |items| - 1)
  {
    if Increasing(items) && OnGrid(items, step) {
      forall i, j | 0 <= i && j == i + 1 && j < |items| ensures Onward(items[i], items[j], step) {
        AlignedDifference(items[j].ts - items[0].ts, items[i].ts - items[0].ts, step);
      }
    }
    if Lead(items, step, |items| - 1) {
      forall i, j | 0 <= i < j < |items| ensures items[i].ts < items[j].ts && Aligned(items[j].ts - items[i].ts, step) {
        LeadIncreases(items, step, i, j);
      }
      MultipleIsAligned(0, step);
    }
  }

  ghost predicate DistinctSamples(items: seq<GraphItem>) {
    forall i, j :: 0 <= i < j < |items| ==> items[i] != items[j]
  }

  /** Of distinct samples all are reported if and only if the list is strictly increasing and on its own grid. */
  lemma GaugesCompleteIff(items: seq<GraphItem>, step: int)
    requires step >= 1 && DistinctSamples(items)
    ensures AllGaugesReported(items, step) <==> Increasing(items) && OnGrid(items, step)
  {
    OrderedIsLead(items, step);
    if AllGaugesReported(items, step) && items != [] {
      var last := |items| - 1;
      var k := LeadSound(items, step, items[last].ts);
      assert items[k] == items[last];
      assert k == last;
    }
    if Lead(items, step, |items| - 1) {
      forall k | 0 <= k < |items| ensures CachedAt(items, GAUGE, step, items[k].ts) == Some(items[k].value) {
        LeadReached(items, step, k);
        if k < |items| - 1 {
          LeadIncreases(items, step, k, |items| - 1);
        }
      }
    }
  }

  /** Of a list that ends before it begins nothing is reported. */
  lemma NothingOfBackward(items: seq<GraphItem>, step: int, t: int)
    requires step >= 1 && items != [] && items[|items| - 1].ts < items[0].ts
    ensures CachedAt(items, GAUGE, step, t) == None
  {
    if t <= items[|items| - 1].ts && LeadAt(items, step, t).Some? {
      var k := LeadSound(items, step, t);
      if k > 0 {
        LeadIncreases(items, step, 0, k);
      }
    }
  }

  lemma AlignedIsOnGrid(items: seq<GraphItem>, step: int)
    requires step >= 1 && forall k :: 0 <= k < |items| ==> Aligned(items[k].ts, step)
    ensures OnGrid(items, step)
  {
    forall k | 0 <= k < |items| ensures Aligned(items[k].ts - items[0].ts, step) {
      AlignedDifference(items[k].ts, items[0].ts, step);
    }
  }

  // ----- expanding the cached samples to a grid -----

  /** What both expansions guarantee: in the window, on a grid, and saying what the samples say. */
  ghost predicate Expanded(cache: seq<Point>, items: seq<GraphItem>, dsType: string, step: int, startTs: int,
                           endTs: int)
    requires step >= 1 && items != []
  {
    && Steps(cache, step)
    && (cache != [] ==> items[0].ts <= cache[0].ts)
    && (forall t :: startTs <= t <= endTs ==> PointAt(cache, t) == CachedAt(items, dsType, step, t))
  }

  /** One round of an expansion loop: nothing is said between grid points. */
  ghost predicate ExpandedTo(cache: seq<Point>, items: seq<GraphItem>, dsType: string, step: int, startTs: int,
                             endTs: int, ts: int)
    requires step >= 1 && items != []
  {
    && Steps(cache, step)
    && (cache != [] ==> items[0].ts <= cache[0].ts && (ts - step <= endTs ==> cache[|cache| - 1].ts == ts - step))
    && (forall i :: 0 <= i < |cache| ==> cache[i].ts < ts)
    && (forall t :: startTs <= t <= endTs && t < ts ==> PointAt(cache, t) == CachedAt(items, dsType, step, t))
  }

  /** The expansion keeps the points inside the window. */
  function Extend(cache: seq<Point>, p: Point, startTs: int, endTs: int): seq<Point> {
    if startTs <= p.ts <= endTs then cache + [p] else cache
  }

  lemma ExpandStep(cache: seq<Point>, items: seq<GraphItem>, dsType: string, step: int, startTs: int, endTs: int,
                   ts: int, p: Point)
    requires step >= 1 && items != [] && Aligned(ts, step) && items[0].ts <= ts
    requires ExpandedTo(cache, items, dsType, step, startTs, endTs, ts)
    requires p == Point(ts, CachedAt(items, dsType, step, ts))
    requires forall t :: ts < t < ts + step ==> CachedAt(items, dsType, step, t) == None
    ensures startTs <= ts <= endTs ==> ExpandedTo(cache + [p], items, dsType, step, startTs, endTs, ts + step)
    ensures ts < startTs && cache == [] ==> ExpandedTo(cache, items, dsType, step, startTs, endTs, ts + step)
    ensures ts > endTs ==> ExpandedTo(cache, items, dsType, step, startTs, endTs, ts + step)
  {
    if startTs <= ts <= endTs {
      var cache' := cache + [p];
      forall t | startTs <= t <= endTs && t < ts + step
        ensures PointAt(cache', t) == CachedAt(items, dsType, step, t)
      {
        PointAtAppend(cache, p, t);
        if t > ts {
          PointAtAbsent(cache, t);
        }
      }
    } else {
      forall t | startTs <= t <= endTs && ts <= t < ts + step
        ensures PointAt(cache, t) == CachedAt(items, dsType, step, t)
      {
        PointAtAbsent(cache, t);
      }
    }
  }

  /** What is reported lies on the grid of the first sample, and not before it. */
  lemma CachedOnGrid(items: seq<GraphItem>, dsType: string, step: int, t: int)
    requires step >= 1 && CachedAt(items, dsType, step, t).Some?
    ensures items[0].ts <= t && Aligned(t - items[0].ts, step)
  {
    var k: nat;
    if IsRate(dsType) {
      k := RateSound(items, step, t);
      RunIsLead(items, step, k);
    } else {
      k := LeadSound(items, step, t);
    }
    if k > 0 {
      LeadIncreases(items, step, 0, k);
    } else {
      MultipleIsAligned(0, step);
    }
  }

  /** Nothing is reported strictly between two neighbouring grid points. */
  lemma NothingBetween(items: seq<GraphItem>, dsType: string, step: int, ts: int, t: int)
    requires step >= 1 && items != [] && Aligned(ts - items[0].ts, step) && ts < t < ts + step
    ensures CachedAt(items, dsType, step, t) == None
  {
    if CachedAt(items, dsType, step, t).Some? {
      CachedOnGrid(items, dsType, step, t);
      AlignedGap(ts - items[0].ts, t - items[0].ts, step);
      assert false;
    }
  }

  lemma ExpandStart(items: seq<GraphItem>, dsType: string, step: int, startTs: int, endTs: int)
    requires step >= 1 && items != []
    ensures ExpandedTo([], items, dsType, step, startTs, endTs, items[0].ts)
  {
    forall t | t < items[0].ts ensures CachedAt(items, dsType, step, t) == None {
      if CachedAt(items, dsType, step, t).Some? {
        CachedOnGrid(items, dsType, step, t);
      }
    }
  }

  /** After the last round nothing more is reported. */
  lemma ExpandDone(cache: seq<Point>, items: seq<GraphItem>, dsType: string, step: int, startTs: int, endTs: int,
                   ts: int)
    requires step >= 1 && items != []
    requires ExpandedTo(cache, items, dsType, step, startTs, endTs, ts)
    requires items[|items| - 1].ts <= ts && (dsType == GAUGE ==> items[|items| - 1].ts < ts)
    ensures Expanded(cache, items, dsType, step, startTs, endTs)
  {
    forall t | startTs <= t <= endTs && ts <= t ensures PointAt(cache, t) == CachedAt(items, dsType, step, t) {
      PointAtAbsent(cache, t);
    }
  }

  /** The gauge loop has reached the samples before `idx`. It stays there until the time comes to sample `idx`, or
      forever when that one is not onward of its predecessor. */
  ghost predicate AtGauge(items: seq<GraphItem>, step: int, idx: int, ts: int)
    requires step >= 1
  {
    && 0 <= idx <= |items| != 0 && items[0].ts <= ts && Aligned(ts - items[0].ts, step)
    && Lead(items, step, idx - 1)
    && (forall i :: 0 <= i < idx ==> items[i].ts < ts)
    && (idx < |items| && (idx > 0 ==> Onward(items[idx - 1], items[idx], step)) ==> ts <= items[idx].ts)
  }

  predicate GaugeHit(items: seq<GraphItem>, idx: nat, ts: int) {
    idx < |items| && ts == items[idx].ts
  }

  /** A hit is one sample further on the way. */
  lemma HitIsOnward(items: seq<GraphItem>, step: int, idx: nat, ts: int)
    requires step >= 1 && AtGauge(items, step, idx, ts) && GaugeHit(items, idx, ts)
    ensures Lead(items, step, idx)
  {
    if idx == 1 {
      assert Onward(items[0], items[1], step);
    } else if idx > 1 {
      LeadIncreases(items, step, 0, idx - 1);
      AlignedDifference(ts - items[0].ts, items[idx - 1].ts - items[0].ts, step);
      assert Onward(items[idx - 1], items[idx], step);
    }
  }

  /** What is reported at a grid point. */
  lemma GaugeAtSlot(items: seq<GraphItem>, step: int, idx: nat, ts: int)
    requires step >= 1 && AtGauge(items, step, idx, ts)
    ensures LeadAt(items, step, ts) == if GaugeHit(items, idx, ts) then Some(items[idx].value) else None
  {
    if GaugeHit(items, idx, ts) {
      HitIsOnward(items, step, idx, ts);
      LeadReached(items, step, idx);
    } else if LeadAt(items, step, ts).Some? {
      var k := LeadSound(items, step, ts);
      assert k >= idx;
      assert idx > 0 ==> Onward(items[idx - 1], items[idx], step);
      if k > idx {
        LeadIncreases(items, step, idx, k);
      }
    }
  }

  lemma GaugeNext(items: seq<GraphItem>, step: int, idx: nat, ts: int)
    requires step >= 1 && AtGauge(items, step, idx, ts)
    ensures AtGauge(items, step, if GaugeHit(items, idx, ts) then idx + 1 else idx, ts + step)
  {
    AlignedNext(ts - items[0].ts, step);
    MultipleIsAligned(0, step);
    if GaugeHit(items, idx, ts) {
      HitIsOnward(items, step, idx, ts);
      if idx + 1 < |items| && Onward(items[idx], items[idx + 1], step) {
        AlignedGap(0, items[idx + 1].ts - ts, step);
      }
    } else if 0 < idx < |items| && Onward(items[idx - 1], items[idx], step) {
      LeadIncreases(items, step, 0, idx);
      AlignedDifference(items[idx].ts - items[0].ts, ts - items[0].ts, step);
      AlignedGap(0, items[idx].ts - ts, step);
    }
  }

  /** One round of the gauge loop. */
  lemma GaugeRound(cache: seq<Point>, items: seq<GraphItem>, step: int, startTs: int, endTs: int, idx: nat, p: Point)
    requires step >= 1 && items != [] && AtGauge(items, step, idx, p.ts) && p.ts <= items[|items| - 1].ts
    requires Aligned(p.ts, step) && (p.ts <= startTs ==> cache == [])
    requires ExpandedTo(cache, items, GAUGE, step, startTs, endTs, p.ts)
    requires p.value == if GaugeHit(items, idx, p.ts) then Some(items[idx].value) else None
    ensures Aligned(p.ts + step, step)
    ensures ExpandedTo(Extend(cache, p, startTs, endTs), items, GAUGE, step, startTs, endTs, p.ts + step)
  {
    GaugeAtSlot(items, step, idx, p.ts);
    AlignedNext(p.ts, step);
    forall t | p.ts < t < p.ts + step ensures CachedAt(items, GAUGE, step, t) == None {
      NothingBetween(items, GAUGE, step, p.ts, t);
    }
    ExpandStep(cache, items, GAUGE, step, startTs, endTs, p.ts, p);
  }

  method ExpandGauge(items: seq<GraphItem>, step: int, startTs: int, endTs: int) returns (cache: seq<Point>)
    requires step >= 1 && items != []
    ensures forall p :: p in cache ==> startTs <= p.ts <= endTs
    ensures forall p :: p in cache && p.value.Some? ==> GraphItem(p.ts, p.value.value) in items
    ensures Rooted(items, step) ==> Expanded(cache, items, GAUGE, step, startTs, endTs)
  {
    cache := [];
    var ts, itemEndTs, itemIdx := items[0].ts, items[|items| - 1].ts, 0;
    ghost var rooted := Rooted(items, step);
    ExpandStart(items, GAUGE, step, startTs, endTs);
    MultipleIsAligned(0, step);
    while ts <= itemEndTs
      invariant AtGauge(items, step, itemIdx, ts)
      invariant forall p :: p in cache ==> startTs <= p.ts <= endTs
      invariant forall p :: p in cache && p.value.Some? ==> GraphItem(p.ts, p.value.value) in items
      invariant ts <= startTs ==> cache == []
      invariant rooted ==> Aligned(ts, step) && ExpandedTo(cache, items, GAUGE, step, startTs, endTs, ts)
      decreases itemEndTs - ts
    {
      var val: Option<real>;
      ghost var idx := itemIdx;
      if itemIdx < |items| && ts == items[itemIdx].ts {
        val := Some(items[itemIdx].value);
        itemIdx := itemIdx + 1;
      } else {
        val := None;
      }
      GaugeNext(items, step, idx, ts);
      if rooted {
        GaugeRound(cache, items, step, startTs, endTs, idx, Point(ts, val));
      }
      if ts >= startTs && ts <= endTs {
        cache := cache + [Point(ts, val)];
      }
      ts := ts + step;
    }
    if rooted {
      ExpandDone(cache, items, GAUGE, step, startTs, endTs, ts);
    }
  }

  predicate RateHit(items: seq<GraphItem>, step: int, idx: nat, ts: int) {
    idx + 1 < |items| && items[idx].ts == ts && items[idx + 1].ts == ts + step
  }

  /** The rate at a grid point, when the leading run reaches sample `idx` and `ts` is not before it. */
  lemma RateAtSlot(items: seq<GraphItem>, step: int, idx: nat, ts: int)
    requires step >= 1 && AtSample(items, step, idx, ts)
    ensures RateAt(items, step, ts) ==
            if RateHit(items, step, idx, ts) then Rate(items[idx], items[idx + 1], step) else None
  {
    if RateHit(items, step, idx, ts) {
      RateInLeadingRun(items, step, idx);
    } else if RateAt(items, step, ts).Some? {
      var k := RateSound(items, step, ts);
      RunIsLead(items, step, k + 1);
      RunIsLead(items, step, idx);
      if k < idx {
        LeadIncreases(items, step, k, idx);
      }
    }
  }

  /** A point of the cache is the rate of two neighbouring samples, the earlier of which gives its time. */
  ghost predicate IsRateOf(items: seq<GraphItem>, step: int, p: Point)
    requires step >= 1
  {
    exists k :: 0 <= k && k + 1 < |items| && items[k].ts == p.ts && RatedPair(items, step, k)
                && p.value == Rate(items[k], items[k + 1], step)
  }

  /** The rate loop stays at sample `idx` until the time reaches it, or forever once a gap follows it. */
  ghost predicate AtSample(items: seq<GraphItem>, step: int, idx: int, ts: int) {
    && 0 <= idx < |items| && items[idx].ts <= ts
    && LeadingRun(items, step, idx)
    && (items[idx].ts < ts ==> idx + 1 == |items| || items[idx + 1].ts != items[idx].ts + step)
  }

  method NextRate(items: seq<GraphItem>, itemIdx: nat, ts: int, step: int) returns (val: Option<real>, next: nat)
    requires step >= 1 && AtSample(items, step, itemIdx, ts)
    ensures val == if RateHit(items, step, itemIdx, ts) then Rate(items[itemIdx], items[itemIdx + 1], step) else None
    ensures val.Some? ==> IsRateOf(items, step, Point(ts, val))
    ensures AtSample(items, step, next, ts + step)
  {
    if itemIdx < |items| - 1 && ts == items[itemIdx].ts && ts == items[itemIdx + 1].ts - step {
      val := Rate(items[itemIdx], items[itemIdx + 1], step);
      RateSign(items[itemIdx], items[itemIdx + 1], step);
      assert val.Some? ==> RatedPair(items, step, itemIdx);
      next := itemIdx + 1;
    } else {
      val, next := None, itemIdx;
    }
  }

  /** One round of the rate loop. */
  lemma RateRound(cache: seq<Point>, items: seq<GraphItem>, dsType: string, step: int, startTs: int, endTs: int,
                  idx: nat, p: Point)
    requires step >= 1 && IsRate(dsType) && AtSample(items, step, idx, p.ts) && p.ts < items[|items| - 1].ts
    requires Aligned(p.ts, step) && Aligned(p.ts - items[0].ts, step) && items[0].ts <= p.ts
    requires p.ts <= startTs ==> cache == []
    requires ExpandedTo(cache, items, dsType, step, startTs, endTs, p.ts)
    requires p.value == if RateHit(items, step, idx, p.ts) then Rate(items[idx], items[idx + 1], step) else None
    ensures Aligned(p.ts + step, step)
    ensures ExpandedTo(Extend(cache, p, startTs, endTs), items, dsType, step, startTs, endTs, p.ts + step)
  {
    RateAtSlot(items, step, idx, p.ts);
    AlignedNext(p.ts, step);
    forall t | p.ts < t < p.ts + step ensures CachedAt(items, dsType, step, t) == None {
      NothingBetween(items, dsType, step, p.ts, t);
    }
    ExpandStep(cache, items, dsType, step, startTs, endTs, p.ts, p);
  }

  /** Points in the window, each NaN or the rate of two neighbouring samples. */
  ghost predicate RatePoints(cache: seq<Point>, items: seq<GraphItem>, step: int, startTs: int, endTs: int)
    requires step >= 1
  {
    forall p :: p in cache ==> startTs <= p.ts <= endTs && (p.value.Some? ==> IsRateOf(items, step, p))
  }

  lemma RatePointsNext(cache: seq<Point>, items: seq<GraphItem>, step: int, startTs: int, endTs: int, p: Point)
    requires step >= 1 && RatePoints(cache, items, step, startTs, endTs)
    requires startTs <= p.ts <= endTs && (p.value.Some? ==> IsRateOf(items, step, p))
    ensures RatePoints(cache + [p], items, step, startTs, endTs)
  {
  }

  /** What holds of the rate loop before each round. */
  ghost predicate RateLoop(cache: seq<Point>, items: seq<GraphItem>, dsType: string, step: int, startTs: int,
                           endTs: int, itemIdx: int, ts: int)
    requires step >= 1 && items != []
  {
    && AtSample(items, step, itemIdx, ts) && items[0].ts <= ts && Aligned(ts - items[0].ts, step)
    && RatePoints(cache, items, step, startTs, endTs)
    && (ts <= startTs ==> cache == [])
    && (Rooted(items, step) ==> Aligned(ts, step) && ExpandedTo(cache, items, dsType, step, startTs, endTs, ts))
  }

  /** The gap-free part of one round. */
  lemma RootedRound(cache: seq<Point>, items: seq<GraphItem>, dsType: string, step: int, startTs: int, endTs: int,
                     itemIdx: nat, p: Point)
    requires step >= 1 && items != [] && IsRate(dsType) && p.ts < items[|items| - 1].ts
    requires RateLoop(cache, items, dsType, step, startTs, endTs, itemIdx, p.ts)
    requires p.value ==
             if RateHit(items, step, itemIdx, p.ts) then Rate(items[itemIdx], items[itemIdx + 1], step) else None
    ensures Rooted(items, step) ==>
              && Aligned(p.ts + step, step)
              && ExpandedTo(Extend(cache, p, startTs, endTs), items, dsType, step, startTs, endTs, p.ts + step)
  {
    if Rooted(items, step) {
      RateRound(cache, items, dsType, step, startTs, endTs, itemIdx, p);
    }
  }

  /** The parts of the loop's state after a round make up the whole. */
  lemma RateLoopNext(cache: seq<Point>, items: seq<GraphItem>, dsType: string, step: int, startTs: int, endTs: int,
                     itemIdx: nat, next: nat, p: Point)
    requires step >= 1 && items != [] && IsRate(dsType) && p.ts < items[|items| - 1].ts
    requires RateLoop(cache, items, dsType, step, startTs, endTs, itemIdx, p.ts)
    requires AtSample(items, step, next, p.ts + step)
    requires p.value ==
             if RateHit(items, step, itemIdx, p.ts) then Rate(items[itemIdx], items[itemIdx + 1], step) else None
    requires p.value.Some? ==> IsRateOf(items, step, p)
    ensures RateLoop(Extend(cache, p, startTs, endTs), items, dsType, step, startTs, endTs, next, p.ts + step)
  {
    var longer := Extend(cache, p, startTs, endTs);
    assert RatePoints(longer, items, step, startTs, endTs) by {
      if startTs <= p.ts <= endTs {
        RatePointsNext(cache, items, step, startTs, endTs, p);
      }
    }
    RootedRound(cache, items, dsType, step, startTs, endTs, itemIdx, p);
    AlignedNext(p.ts - items[0].ts, step);
  }

  method ExpandRate(items: seq<GraphItem>, dsType: string, step: int, startTs: int, endTs: int)
    returns (cache: seq<Point>)
    requires step >= 1 && items != [] && IsRate(dsType)
    ensures RatePoints(cache, items, step, startTs, endTs)
    ensures Rooted(items, step) ==> Expanded(cache, items, dsType, step, startTs, endTs)
  {
    cache := [];
    var ts, itemEndTs, itemIdx := items[0].ts, items[|items| - 1].ts, 0;
    ExpandStart(items, dsType, step, startTs, endTs);
    MultipleIsAligned(0, step);
    while ts < itemEndTs
      invariant RateLoop(cache, items, dsType, step, startTs, endTs, itemIdx, ts)
      decreases itemEndTs - ts
    {
      var val, next := NextRate(items, itemIdx, ts, step);
      RateLoopNext(cache, items, dsType, step, startTs, endTs, itemIdx, next, Point(ts, val));
      if ts >= startTs && ts <= endTs {
        cache := cache + [Point(ts, val)];
      }
      itemIdx := next;
      ts := ts + step;
    }
    if Rooted(items, step) {
      ExpandDone(cache, items, dsType, step, startTs, endTs, ts);
    }
  }

  // ----- splicing onto the RRD data -----

  /** `merged` says at every time what the cache says, and what the data says where the cache is silent. */
  ghost predicate Overlaid(merged: seq<Point>, cache: seq<Point>, datas: seq<Point>) {
    forall t :: PointAt(merged, t) == OrElse(PointAt(cache, t), PointAt(datas, t))
  }

  /** Where the first cached point goes: over point `at` of the data, or right behind the last one. */
  ghost predicate Joined(base: seq<Point>, cache: seq<Point>, at: nat, size: nat, step: int)
    requires step >= 1 && size <= |base| && cache != []
  {
    && Steps(base, step) && Steps(cache, step)
    && if at < size then |base| == size && base[at].ts == cache[0].ts
       else base != [] ==> base[|base| - 1].ts + step == cache[0].ts
  }

  lemma {:induction false} InWindowAppend(ps: seq<Point>, p: Point, startTs: int, endTs: int)
    ensures InWindow(ps + [p], startTs, endTs) ==
            InWindow(ps, startTs, endTs) + if startTs <= p.ts <= endTs then [p] else []
  {
    if ps != [] {
      assert (ps + [p])[1..] == ps[1..] + [p];
      InWindowAppend(ps[1..], p, startTs, endTs);
    }
  }

  method CutToWindow(datas: seq<Point>, startTs: int, endTs: int) returns (merged: seq<Point>)
    ensures merged == InWindow(datas, startTs, endTs)
  {
    merged := [];
    for i := 0 to |datas|
      invariant merged == InWindow(datas[..i], startTs, endTs)
    {
      InWindowAppend(datas[..i], datas[i], startTs, endTs);
      assert datas[..i + 1] == datas[..i] + [datas[i]];
      if datas[i].ts >= startTs && datas[i].ts <= endTs {
        merged := merged + [datas[i]];
      }
    }
    assert datas[..|datas|] == datas;
  }

  method FindJunction(merged: seq<Point>, cacheTs: int) returns (rrdDataIdx: int, lastTs: int)
    ensures -1 <= rrdDataIdx < |merged|
    ensures forall i :: rrdDataIdx < i < |merged| ==> cacheTs <= merged[i].ts
    ensures if rrdDataIdx >= 0 then lastTs == merged[rrdDataIdx].ts < cacheTs else lastTs == cacheTs
  {
    lastTs := cacheTs;
    rrdDataIdx := |merged| - 1;
    while rrdDataIdx >= 0
      invariant -1 <= rrdDataIdx < |merged|
      invariant forall i :: rrdDataIdx < i < |merged| ==> cacheTs <= merged[i].ts
      invariant lastTs == cacheTs
    {
      if merged[rrdDataIdx].ts < cacheTs {
        lastTs := merged[rrdDataIdx].ts;
        break;
      }
      rrdDataIdx := rrdDataIdx - 1;
    }
  }

  /** One more NaN behind gap-free points changes no value and stops short of the cache. */
  lemma FillStep(filled: seq<Point>, merged: seq<Point>, ts: int, cacheTs: int, step: int)
    requires step >= 1 && filled != [] && Steps(filled, step) && filled[|filled| - 1].ts == ts - step
    requires Aligned(cacheTs, step) && ts < cacheTs
    requires forall t :: PointAt(filled, t) == PointAt(merged, t)
    ensures ts + step <= cacheTs && Steps(filled + [Point(ts, None)], step)
    ensures forall t :: PointAt(filled + [Point(ts, None)], t) == PointAt(merged, t)
  {
    StepsIncreasing(filled, step);
    AlignedNext(ts - step, step);
    AlignedGap(ts, cacheTs, step);
    PointAtAbsent(filled, ts);
    forall t ensures PointAt(filled + [Point(ts, None)], t) == PointAt(merged, t) {
      PointAtAppend(filled, Point(ts, None), t);
    }
  }

  method FillMissing(merged: seq<Point>, lastTs: int, cacheTs: int, step: int) returns (filled: seq<Point>)
    requires step >= 1
    ensures |merged| <= |filled| && filled[..|merged|] == merged
    ensures forall i :: |merged| <= i < |filled| ==> filled[i].value == None
    ensures cacheTs <= lastTs + step ==> filled == merged
    ensures Steps(merged, step) && merged != [] && lastTs == merged[|merged| - 1].ts && lastTs < cacheTs
            && Aligned(cacheTs, step) ==>
              && Steps(filled, step) && filled[|filled| - 1].ts + step == cacheTs
              && forall t :: PointAt(filled, t) == PointAt(merged, t)
  {
    filled := merged;
    ghost var last := Steps(merged, step) && merged != [] && lastTs == merged[|merged| - 1].ts && lastTs < cacheTs
                      && Aligned(cacheTs, step);
    var ts := lastTs + step;
    if last {
      StepsIncreasing(merged, step);
      AlignedGap(lastTs, cacheTs, step);
    }
    while ts < cacheTs
      invariant |merged| <= |filled| && filled[..|merged|] == merged
      invariant forall i :: |merged| <= i < |filled| ==> filled[i].value == None
      invariant cacheTs <= lastTs + step ==> filled == merged
      invariant last ==> Steps(filled, step) && filled[|filled| - 1].ts == ts - step && ts <= cacheTs
      invariant last ==> forall t :: PointAt(filled, t) == PointAt(merged, t)
      decreases cacheTs - ts
    {
      if last {
        FillStep(filled, merged, ts, cacheTs, step);
      }
      filled := filled + [Point(ts, None)];
      ts := ts + step;
    }
  }

  /** Putting cached point `c` over the data point with its timestamp extends the overlay by that point. */
  lemma OverlayUpdate(merged: seq<Point>, base: seq<Point>, cache: seq<Point>, c: nat, at: nat, step: int)
    requires step >= 1 && c < |cache| && at < |merged| && merged[at].ts == cache[c].ts
    requires Steps(merged, step) && Steps(cache, step)
    requires Overlaid(merged, cache[..c], base)
    ensures cache[c].value.Some? ==>
              Steps(merged[at := cache[c]], step) && Overlaid(merged[at := cache[c]], cache[..c + 1], base)
    ensures cache[c].value.None? ==> Overlaid(merged, cache[..c + 1], base)
  {
    StepsIncreasing(merged, step);
    StepsIncreasing(cache, step);
    assert cache[..c + 1] == cache[..c] + [cache[c]];
    forall t
      ensures PointAt(cache[..c + 1], t) == if t == cache[c].ts then cache[c].value else PointAt(cache[..c], t)
      ensures PointAt(merged[at := cache[c]], t) == if t == cache[c].ts then cache[c].value else PointAt(merged, t)
    {
      PointAtAppend(cache[..c], cache[c], t);
      PointAtUpdate(merged, at, cache[c], t);
    }
    PointAtAbsent(cache[..c], cache[c].ts);
  }

  /** Appending cached point `c` behind all data extends the overlay by that point. */
  lemma OverlayAppend(merged: seq<Point>, base: seq<Point>, cache: seq<Point>, c: nat, step: int)
    requires step >= 1 && c < |cache| && Steps(merged, step) && Steps(cache, step)
    requires merged != [] ==> merged[|merged| - 1].ts + step == cache[c].ts
    requires Overlaid(merged, cache[..c], base)
    ensures Steps(merged + [cache[c]], step) && Overlaid(merged + [cache[c]], cache[..c + 1], base)
  {
    StepsIncreasing(merged, step);
    StepsIncreasing(cache, step);
    assert cache[..c + 1] == cache[..c] + [cache[c]];
    forall t
      ensures PointAt(cache[..c + 1], t) == if t == cache[c].ts then cache[c].value else PointAt(cache[..c], t)
      ensures PointAt(merged + [cache[c]], t) == if t == cache[c].ts then cache[c].value else PointAt(merged, t)
    {
      PointAtAppend(cache[..c], cache[c], t);
      PointAtAppend(merged, cache[c], t);
    }
    PointAtAbsent(cache[..c], cache[c].ts);
    PointAtAbsent(merged, cache[c].ts);
  }

  method OverlayCache(base: seq<Point>, cache: seq<Point>, at: nat, size: nat, step: int) returns (merged: seq<Point>)
    requires step >= 1 && size <= |base| && cache != []
    ensures forall p :: p in merged ==> p in cache || p in base
    ensures Joined(base, cache, at, size, step) ==>
              && Steps(merged, step) && Overlaid(merged, cache, base) && merged != []
              && merged[0].ts == if base != [] then base[0].ts else cache[0].ts
  {
    merged := base;
    var rrdDataIdx := at;
    ghost var joined := Joined(base, cache, at, size, step);
    for cacheIdx := 0 to |cache|
      invariant rrdDataIdx == at + cacheIdx && |base| <= |merged|
      invariant forall p :: p in merged ==> p in cache || p in base
      invariant joined ==> Steps(merged, step) && Overlaid(merged, cache[..cacheIdx], base)
      invariant joined && rrdDataIdx < size ==> |merged| == size
      invariant joined && cacheIdx < |cache| && rrdDataIdx < size ==> merged[rrdDataIdx].ts == cache[cacheIdx].ts
      invariant joined && cacheIdx < |cache| && rrdDataIdx >= size && merged != [] ==>
                  merged[|merged| - 1].ts + step == cache[cacheIdx].ts
      invariant joined && merged != [] ==> merged[0].ts == if base != [] then base[0].ts else cache[0].ts
      invariant joined && merged == [] ==> cacheIdx == 0
    {
      if rrdDataIdx < size {
        if joined {
          OverlayUpdate(merged, base, cache, cacheIdx, rrdDataIdx, step);
        }
        if cache[cacheIdx].value.Some? {
          merged := merged[rrdDataIdx := cache[cacheIdx]];
        }
      } else {
        if joined {
          OverlayAppend(merged, base, cache, cacheIdx, step);
        }
        merged := merged + [cache[cacheIdx]];
      }
      rrdDataIdx := rrdDataIdx + 1;
    }
    assert cache[..|cache|] == cache;
  }

  method MergeCached(cache: seq<Point>, datas: seq<Point>, step: int, startTs: int, endTs: int)
    returns (merged: seq<Point>)
    requires step >= 1
    ensures forall p :: p in merged && p.value.Some? ==> p in cache || p in datas
    ensures var w := InWindow(datas, startTs, endTs);
            Steps(cache, step) && Steps(w, step) && (w != [] && cache != [] ==> w[0].ts <= cache[0].ts) ==>
              && Steps(merged, step) && Overlaid(merged, cache, w)
              && (merged != [] ==> if w != [] then merged[0].ts == w[0].ts
                                   else cache != [] && merged[0].ts == cache[0].ts)
  {
    merged := CutToWindow(datas, startTs, endTs);
    ghost var w := merged;
    if |cache| > 0 {
      var size := |merged|;
      var idx, lastTs := FindJunction(merged, cache[0].ts);
      merged := FillMissing(merged, lastTs, cache[0].ts, step);
      ghost var base := merged;
      if Steps(cache, step) && Steps(w, step) && (w != [] ==> w[0].ts <= cache[0].ts) {
        StepsIncreasing(w, step);
        if 0 <= idx < size - 1 {
          AlignedGap(w[idx].ts, cache[0].ts, step);
          assert w[idx + 1].ts == w[idx].ts + step;
        }
        assert Joined(base, cache, idx + 1, size, step);
      }
      merged := OverlayCache(merged, cache, idx + 1, size, step);
      forall p | p in merged && p.value.Some? ensures p in cache || p in datas {
        if p in base {
          var i :| 0 <= i < |base| && base[i] == p;
          assert p == base[..size][i];
        }
      }
    }
  }

  // ----- cutting the answer -----

  /** The next merged point is the one for this slot, or there is none for it and the next is later. */
  lemma RegridSlot(merged: seq<Point>, mergedIdx: nat, ts: int, step: int)
    requires step >= 1 && Steps(merged, step) && Aligned(ts, step) && mergedIdx <= |merged|
    requires mergedIdx < |merged| ==> ts <= merged[mergedIdx].ts
    requires mergedIdx > 0 ==> merged[mergedIdx - 1].ts < ts
    ensures Aligned(ts + step, step)
    ensures var hit := mergedIdx < |merged| && ts == merged[mergedIdx].ts;
            && PointAt(merged, ts) == (if hit then merged[mergedIdx].value else None)
            && (hit && mergedIdx + 1 < |merged| ==> merged[mergedIdx + 1].ts == ts + step)
            && (!hit && mergedIdx < |merged| ==> ts + step <= merged[mergedIdx].ts)
  {
    StepsIncreasing(merged, step);
    AlignedNext(ts, step);
    if mergedIdx < |merged| && ts == merged[mergedIdx].ts {
      PointAtIndex(merged, mergedIdx);
    } else {
      PointAtAbsent(merged, ts);
      if mergedIdx < |merged| {
        AlignedGap(ts, merged[mergedIdx].ts, step);
      }
    }
  }

  method Regrid(merged: seq<Point>, startTs: int, step: int, retSize: nat) returns (values: seq<Point>)
    requires step >= 1
    ensures |values| == retSize
    ensures OnSlots(values, startTs, step)
    ensures forall p :: p in values && p.value.Some? ==> p in merged
    ensures Steps(merged, step) && Aligned(startTs, step) && (merged != [] ==> startTs <= merged[0].ts) ==>
              forall i :: 0 <= i < retSize ==> values[i].value == PointAt(merged, values[i].ts)
  {
    var ret := new Point[retSize];
    var mergedIdx, ts := 0, startTs;
    ghost var good := Steps(merged, step) && Aligned(startTs, step) && (merged != [] ==> startTs <= merged[0].ts);
    for i := 0 to retSize
      invariant 0 <= mergedIdx <= |merged| && ts == startTs + i * step
      invariant forall k :: 0 <= k < i ==> ret[k].ts == startTs + k * step
      invariant forall k :: 0 <= k < i && ret[k].value.Some? ==> ret[k] in merged
      invariant good ==> Aligned(ts, step)
      invariant good && mergedIdx < |merged| ==> ts <= merged[mergedIdx].ts
      invariant good && mergedIdx > 0 ==> merged[mergedIdx - 1].ts < ts
      invariant good ==> forall k :: 0 <= k < i ==> ret[k].value == PointAt(merged, ret[k].ts)
    {
      if good {
        RegridSlot(merged, mergedIdx, ts, step);
      }
      if mergedIdx < |merged| && ts == merged[mergedIdx].ts {
        ret[i] := merged[mergedIdx];
        mergedIdx := mergedIdx + 1;
      } else {
        ret[i] := Point(ts, None);
      }
      assert (i + 1) * step == i * step + step;
      ts := ts + step;
    }
    values := ret[..];
  }

  // ----- the whole query -----

  function WindowStart(start: int, step: int): int
    requires step >= 1
  {
    Align(start, step)
  }

  function WindowEnd(end: int, step: int): int
    requires step >= 1
  {
    Align(end, step) + step
  }

  /** The answer has one slot per step; gauges also get the closing one. */
  function AnswerSize(startTs: int, endTs: int, series: Series): (size: nat)
    requires series.step >= 1 && startTs <= endTs
  {
    DivMonotone(0, endTs - startTs, series.step);
    (endTs - startTs) / series.step + if series.dsType == GAUGE then 1 else 0
  }

  predicate EmptyWindow(startTs: int, endTs: int, step: int) {
    endTs - startTs - step < 1
  }

  /** The window begins before the finest archive, whose points are not consolidated. */
  predicate Consolidated(startTs: int, step: int, nowTs: int)
    requires step >= 1
  {
    startTs < Align(nowTs, step) - RRA1_POINT_CNT * step
  }

  /** The times of the window are the multiples of the step from the last one not after `start` to `end`. */
  lemma WindowTimes(start: nat, end: nat, step: int, t: int)
    requires step >= 1 && Aligned(t, step)
    ensures WindowStart(start, step) <= t < WindowEnd(end, step) <==> start < t + step && t <= end
  {
    AlignProperties(start, step);
    AlignProperties(end, step);
    if Align(start, step) < t + step {
      AlignedNext(t, step);
      AlignedGap(Align(start, step), t + step, step);
    }
    if Align(end, step) < t {
      AlignedGap(Align(end, step), t, step);
    }
  }

  /** Nothing is answered exactly when fewer than two such times are asked for. */
  lemma EmptyWindowIff(start: nat, end: nat, step: int)
    requires step >= 1
    ensures EmptyWindow(WindowStart(start, step), WindowEnd(end, step), step) <==>
            forall t, u :: Aligned(t, step) && Aligned(u, step) && start < t + step && t <= u <= end ==> t == u
  {
    var startTs, endTs := WindowStart(start, step), WindowEnd(end, step);
    AlignProperties(start, step);
    AlignProperties(end, step);
    if EmptyWindow(startTs, endTs, step) {
      forall t, u | Aligned(t, step) && Aligned(u, step) && start < t + step && t <= u <= end ensures t == u {
        WindowTimes(start, end, step, t);
        WindowTimes(start, end, step, u);
        if t < u {
          AlignedGap(t, u, step);
        }
      }
    } else {
      assert Aligned(startTs, step) && Aligned(endTs - step, step) && startTs != endTs - step;
    }
  }

  /** The fetched data is returned as it is exactly when a multiple of the step up to now lies more than the finest
      archive's length after the start of the window. */
  lemma ConsolidatedIff(start: int, now: nat, step: int)
    requires step >= 1
    ensures Consolidated(WindowStart(start, step), step, now) <==>
            exists t :: Aligned(t, step) && t <= now && WindowStart(start, step) + 720 * step < t
  {
    AlignProperties(now, step);
    if t :| Aligned(t, step) && t <= now && WindowStart(start, step) + 720 * step < t {
      if Align(now, step) < t {
        AlignedGap(Align(now, step), t, step);
      }
    }
  }

  /** A point that was not invented: it comes from the RRD file or says what the cached samples say. */
  ghost predicate Genuine(p: Point, items: seq<GraphItem>, datas: seq<Point>, series: Series)
    requires series.step >= 1
  {
    || p in datas
    || (series.dsType == GAUGE && p.value.Some? && GraphItem(p.ts, p.value.value) in items)
    || (IsRate(series.dsType) && IsRateOf(items, series.step, p))
  }

  /** Slot `i` of the answer is for time `startTs + i*step`. */
  ghost predicate OnSlots(values: seq<Point>, startTs: int, step: int) {
    forall i :: 0 <= i < |values| ==> values[i].ts == startTs + i * step
  }

  /** Each slot holds what the cache says, else what the RRD file says, else NaN. */
  ghost predicate Answers(values: seq<Point>, items: seq<GraphItem>, datas: seq<Point>, series: Series)
    requires series.step >= 1
  {
    forall i :: 0 <= i < |values| ==>
      values[i].value == OrElse(CachedAt(items, series.dsType, series.step, values[i].ts), PointAt(datas, values[i].ts))
  }

  lemma SlotInWindow(i: nat, startTs: int, endTs: int, step: int)
    requires step >= 1 && Aligned(startTs, step) && Aligned(endTs, step) && startTs <= endTs
    requires i <= (endTs - startTs) / step
    ensures startTs <= startTs + i * step <= endTs
  {
    var d := endTs - startTs;
    assert step * (d / step) <= d;
    assert (d / step - i) * step >= 0;
  }

  lemma SlotOf(t: int, startTs: int, endTs: int, step: int) returns (i: nat)
    requires step >= 1 && Aligned(startTs, step) && Aligned(t, step) && startTs <= t <= endTs
    ensures i <= (endTs - startTs) / step && startTs + i * step == t
  {
    AlignedDifference(t, startTs, step);
    i := (t - startTs) / step;
    DivMonotone(t - startTs, endTs - startTs, step);
    assert step * i == t - startTs;
  }

  /** The times that have a slot: from the start of the window, a step apart; only gauges have one for its end. */
  ghost predicate SlotTime(t: int, series: Series, startTs: int, endTs: int)
    requires series.step >= 1
  {
    Aligned(t, series.step) && startTs <= t && (t < endTs || (series.dsType == GAUGE && t == endTs))
  }

  ghost predicate HasSlot(values: seq<Point>, t: int) {
    exists i :: 0 <= i < |values| && values[i].ts == t
  }

  /** Exactly those times have a slot, each one, in order. */
  ghost predicate Slots(values: seq<Point>, series: Series, startTs: int, endTs: int)
    requires series.step >= 1
  {
    PointsIncreasing(values) && forall t :: HasSlot(values, t) <==> SlotTime(t, series, startTs, endTs)
  }

  lemma SlotsIncrease(values: seq<Point>, startTs: int, step: int)
    requires step >= 1 && OnSlots(values, startTs, step)
    ensures PointsIncreasing(values)
  {
    forall i, j | 0 <= i < j < |values| ensures values[i].ts < values[j].ts {
      assert (j - i) * step >= step by { MulAtLeast(j - i, step); }
      assert j * step == i * step + (j - i) * step;
    }
  }

  lemma SlotIsTimed(values: seq<Point>, series: Series, startTs: int, endTs: int, i: nat)
    requires series.step >= 1 && Aligned(startTs, series.step) && Aligned(endTs, series.step) && startTs <= endTs
    requires i < |values| == AnswerSize(startTs, endTs, series) && OnSlots(values, startTs, series.step)
    ensures SlotTime(values[i].ts, series, startTs, endTs)
  {
    SlotInWindow(i, startTs, endTs, series.step);
    MultipleIsAligned(i, series.step);
    AlignedSum(startTs, i * series.step, series.step);
    if series.dsType != GAUGE {
      SlotInWindow(i + 1, startTs, endTs, series.step);
      assert (i + 1) * series.step == i * series.step + series.step;
    }
  }

  lemma FewerSteps(i: nat, n: nat, step: int)
    requires step >= 1 && i * step < n * step
    ensures i < n
  {
    if n <= i {
      MoreSteps(n, i, step);
    }
  }

  lemma MoreSteps(n: nat, i: nat, step: int)
    requires step >= 1 && n <= i
    ensures n * step <= i * step
  {
    assert i * step == n * step + (i - n) * step;
  }

  lemma TimeIsSlotted(values: seq<Point>, series: Series, startTs: int, endTs: int, t: int)
    requires series.step >= 1 && Aligned(startTs, series.step) && Aligned(endTs, series.step) && startTs <= endTs
    requires |values| == AnswerSize(startTs, endTs, series) && OnSlots(values, startTs, series.step)
    requires SlotTime(t, series, startTs, endTs)
    ensures HasSlot(values, t)
  {
    var i := SlotOf(t, startTs, endTs, series.step);
    if t < endTs {
      var n := SlotOf(endTs, startTs, endTs, series.step);
      FewerSteps(i, n, series.step);
    }
    assert values[i].ts == t;
  }

  lemma SlotsAreExact(values: seq<Point>, series: Series, startTs: int, endTs: int)
    requires series.step >= 1 && Aligned(startTs, series.step) && Aligned(endTs, series.step) && startTs <= endTs
    requires |values| == AnswerSize(startTs, endTs, series) && OnSlots(values, startTs, series.step)
    ensures Slots(values, series, startTs, endTs)
  {
    SlotsIncrease(values, startTs, series.step);
    forall t ensures HasSlot(values, t) <==> SlotTime(t, series, startTs, endTs) {
      if i :| 0 <= i < |values| && values[i].ts == t {
        SlotIsTimed(values, series, startTs, endTs, i);
      }
      if SlotTime(t, series, startTs, endTs) {
        TimeIsSlotted(values, series, startTs, endTs, t);
      }
    }
  }

  /** The regridded overlay, in terms of the samples and the data themselves. */
  lemma MergedAnswer(values: seq<Point>, merged: seq<Point>, cache: seq<Point>, items: seq<GraphItem>,
                     datas: seq<Point>, series: Series, startTs: int, endTs: int)
    requires series.step >= 1 && items != [] && startTs <= endTs
    requires Aligned(startTs, series.step) && Aligned(endTs, series.step)
    requires |values| == AnswerSize(startTs, endTs, series)
    requires OnSlots(values, startTs, series.step)
    requires forall i :: 0 <= i < |values| ==> values[i].value == PointAt(merged, values[i].ts)
    requires forall t :: startTs <= t <= endTs ==> PointAt(cache, t) == CachedAt(items, series.dsType, series.step, t)
    requires Overlaid(merged, cache, InWindow(datas, startTs, endTs))
    ensures Answers(values, items, datas, series)
  {
    forall i | 0 <= i < |values|
      ensures values[i].value ==
              OrElse(CachedAt(items, series.dsType, series.step, values[i].ts), PointAt(datas, values[i].ts))
    {
      SlotInWindow(i, startTs, endTs, series.step);
      InWindowAt(datas, startTs, endTs, values[i].ts);
    }
  }

  method Expand(items: seq<GraphItem>, series: Series, startTs: int, endTs: int) returns (cache: seq<Point>)
    requires series.step >= 1 && items != []
    ensures forall p :: p in cache ==> startTs <= p.ts <= endTs
    ensures forall p :: p in cache && p.value.Some? ==> Genuine(p, items, [], series)
    ensures Rooted(items, series.step) ==> Expanded(cache, items, series.dsType, series.step, startTs, endTs)
  {
    if IsRate(series.dsType) {
      cache := ExpandRate(items, series.dsType, series.step, startTs, endTs);
    } else if series.dsType == GAUGE {
      cache := ExpandGauge(items, series.step, startTs, endTs);
    } else {
      cache := [];
    }
  }

  method Merge(items: seq<GraphItem>, datas: seq<Point>, series: Series, startTs: int, endTs: int)
    returns (values: seq<Point>)
    requires series.step >= 1 && items != [] && startTs <= endTs
    requires Aligned(startTs, series.step) && Aligned(endTs, series.step)
    ensures Slots(values, series, startTs, endTs)
    ensures forall p :: p in values && p.value.Some? ==> Genuine(p, items, datas, series)
    ensures Rooted(items, series.step) && Fetched(datas, items, series.step, startTs, endTs) ==>
              Answers(values, items, datas, series)
  {
    var step := series.step;
    var cache := Expand(items, series, startTs, endTs);
    ghost var w := InWindow(datas, startTs, endTs);
    ghost var good := Rooted(items, step) && Fetched(datas, items, step, startTs, endTs);
    if good {
      InWindowSteps(datas, step, startTs, endTs);
    }
    var merged := MergeCached(cache, datas, step, startTs, endTs);
    assert good && merged != [] ==> startTs <= merged[0].ts;
    DivMonotone(0, endTs - startTs, step);
    var retSize := (endTs - startTs) / step;
    if series.dsType == GAUGE {
      retSize := retSize + 1;
    }
    values := Regrid(merged, startTs, step, retSize);
    SlotsAreExact(values, series, startTs, endTs);
    if good {
      MergedAnswer(values, merged, cache, items, datas, series, startTs, endTs);
    }
  }

  /** The slot of a time holds what is answered for it. */
  lemma SlotHolds(values: seq<Point>, items: seq<GraphItem>, datas: seq<Point>, series: Series, startTs: int,
                  endTs: int, t: int)
    requires series.step >= 1 && Slots(values, series, startTs, endTs) && Answers(values, items, datas, series)
    requires SlotTime(t, series, startTs, endTs)
    ensures var value := OrElse(CachedAt(items, series.dsType, series.step, t), PointAt(datas, t));
            Point(t, value) in values && forall p :: p in values && p.ts == t ==> p.value == value
  {
    assert HasSlot(values, t);
    var i :| 0 <= i < |values| && values[i].ts == t;
    assert values[i] == Point(t, OrElse(CachedAt(items, series.dsType, series.step, t), PointAt(datas, t)));
  }

  /** A pair of the leading run whose counter did not fall, before the last sample. */
  ghost predicate RateDue(items: seq<GraphItem>, step: int, k: nat)
    requires step >= 1
  {
    && k + 1 < |items| && items[k].ts < items[|items| - 1].ts
    && (forall i, j :: 0 <= i <= k && j == i + 1 ==> items[j].ts == items[i].ts + step)
    && items[k].value <= items[k + 1].value
  }

  /** Every such pair before the end of the window has its rate among the values. */
  ghost predicate RatesReadBack(values: seq<Point>, items: seq<GraphItem>, step: int, startTs: int, endTs: int)
    requires step >= 1
  {
    forall k: nat :: RateDue(items, step, k) && startTs <= items[k].ts < endTs ==>
      Point(items[k].ts, Some((items[k + 1].value - items[k].value) / step as real)) in values
  }

  lemma RateShown(values: seq<Point>, items: seq<GraphItem>, datas: seq<Point>, series: Series, startTs: int,
                  endTs: int, k: nat)
    requires series.step >= 1 && (series.dsType == DERIVE || series.dsType == COUNTER) && Rooted(items, series.step)
    requires Slots(values, series, startTs, endTs) && Answers(values, items, datas, series)
    requires RateDue(items, series.step, k) && startTs <= items[k].ts < endTs
    ensures Point(items[k].ts, Some((items[k + 1].value - items[k].value) / series.step as real)) in values
  {
    var step := series.step;
    assert LeadingRun(items, step, k + 1);
    if k > 0 {
      RunIsLead(items, step, k);
      LeadIncreases(items, step, 0, k);
      AlignedSum(items[k].ts - items[0].ts, items[0].ts, step);
    }
    RateSign(items[k], items[k + 1], step);
    RateInLeadingRun(items, step, k);
    SlotHolds(values, items, datas, series, startTs, endTs, items[k].ts);
  }

  /** Every fetched value that has a slot is among the values, unless the cache has one for its time. */
  ghost predicate DataReadBack(values: seq<Point>, items: seq<GraphItem>, datas: seq<Point>, series: Series,
                               startTs: int, endTs: int)
    requires series.step >= 1
  {
    forall p :: p in datas && SlotTime(p.ts, series, startTs, endTs) ==>
      CachedAt(items, series.dsType, series.step, p.ts).None? ==> p in values
  }

  lemma DataShown(values: seq<Point>, items: seq<GraphItem>, datas: seq<Point>, series: Series, startTs: int,
                  endTs: int)
    requires series.step >= 1 && Slots(values, series, startTs, endTs) && Answers(values, items, datas, series)
    requires Steps(datas, series.step)
    ensures DataReadBack(values, items, datas, series, startTs, endTs)
  {
    StepsIncreasing(datas, series.step);
    forall p | p in datas && SlotTime(p.ts, series, startTs, endTs)
               && CachedAt(items, series.dsType, series.step, p.ts).None?
      ensures p in values
    {
      var i :| 0 <= i < |datas| && datas[i] == p;
      PointAtIndex(datas, i);
      SlotHolds(values, items, datas, series, startTs, endTs, p.ts);
    }
  }

  /** Exactly the samples whose value the slot of their time shows are among the values. */
  ghost predicate ReadsBackExactly(values: seq<Point>, items: seq<GraphItem>, datas: seq<Point>, step: int,
                                   startTs: int, endTs: int)
    requires step >= 1
  {
    forall k :: 0 <= k < |items| && Aligned(items[k].ts, step) && startTs <= items[k].ts <= endTs ==>
      (Point(items[k].ts, Some(items[k].value)) in values <==> Shown(items, datas, step, k))
  }

  /** Sample `k` is reported, or nothing is and the RRD file has the same value. */
  ghost predicate Shown(items: seq<GraphItem>, datas: seq<Point>, step: int, k: nat)
    requires step >= 1 && k < |items|
  {
    OrElse(CachedAt(items, GAUGE, step, items[k].ts), PointAt(datas, items[k].ts)) == Some(items[k].value)
  }

  /** A cached gauge sample, in whatever list, is in the answer if and only if its slot shows it. */
  lemma GaugeShownIff(values: seq<Point>, items: seq<GraphItem>, datas: seq<Point>, series: Series, startTs: int,
                      endTs: int, k: nat)
    requires series.step >= 1 && series.dsType == GAUGE && k < |items| && Aligned(items[k].ts, series.step)
    requires Aligned(startTs, series.step) && startTs <= items[k].ts <= endTs
    requires Slots(values, series, startTs, endTs) && Answers(values, items, datas, series)
    ensures Point(items[k].ts, Some(items[k].value)) in values <==> Shown(items, datas, series.step, k)
  {
    SlotHolds(values, items, datas, series, startTs, endTs, items[k].ts);
  }

  /** Every gauge sample inside the window is among the values. */
  ghost predicate ReadsBack(values: seq<Point>, items: seq<GraphItem>, startTs: int, endTs: int) {
    forall k :: 0 <= k < |items| && startTs <= items[k].ts <= endTs ==>
        Point(items[k].ts, Some(items[k].value)) in values
  }

  /** When all cached gauges are reported, all inside the window are read back exactly, whatever the RRD file says. */
  lemma GaugeReadBack(values: seq<Point>, items: seq<GraphItem>, datas: seq<Point>, step: int, startTs: int, endTs: int)
    requires step >= 1 && AllGaugesReported(items, step)
    requires forall k :: 0 <= k < |items| ==> Aligned(items[k].ts, step)
    requires ReadsBackExactly(values, items, datas, step, startTs, endTs)
    ensures ReadsBack(values, items, startTs, endTs)
  {
    forall k | 0 <= k < |items| && startTs <= items[k].ts <= endTs
      ensures Point(items[k].ts, Some(items[k].value)) in values
    {
      assert Shown(items, datas, step, k);
    }
  }

  /** Of a sampled cache all gauges are reported; at each time the answer has the sample of that time. */
  lemma SampledIsReported(items: seq<GraphItem>, step: int)
    requires step >= 1 && Sampled(items, step)
    ensures AllGaugesReported(items, step)
    ensures forall t :: CachedAt(items, GAUGE, step, t) == ItemAt(items, t)
  {
    AlignedIsOnGrid(items, step);
    assert DistinctSamples(items);
    GaugesCompleteIff(items, step);
    forall t ensures CachedAt(items, GAUGE, step, t) == ItemAt(items, t) {
      ItemAtFound(items, t);
      if ItemAt(items, t).Some? {
        var k :| 0 <= k < |items| && items[k] == GraphItem(t, ItemAt(items, t).value);
      } else if CachedAt(items, GAUGE, step, t).Some? {
        var k := LeadSound(items, step, t);
      }
    }
  }

  /** Which samples, rates and fetched values are among the values of an answer. */
  ghost predicate ReadBack(values: seq<Point>, items: seq<GraphItem>, datas: seq<Point>, series: Series, startTs: int,
                           endTs: int)
    requires series.step >= 1
  {
    && DataReadBack(values, items, datas, series, startTs, endTs)
    && (series.dsType == DERIVE || series.dsType == COUNTER ==>
          RatesReadBack(values, items, series.step, startTs, endTs))
    && (series.dsType == GAUGE ==> ReadsBackExactly(values, items, datas, series.step, startTs, endTs))
  }

  lemma AnswerReadsBack(values: seq<Point>, items: seq<GraphItem>, datas: seq<Point>, series: Series, startTs: int,
                        endTs: int)
    requires series.step >= 1 && Slots(values, series, startTs, endTs) && Answers(values, items, datas, series)
    requires Rooted(items, series.step) && Steps(datas, series.step) && Aligned(startTs, series.step)
    ensures ReadBack(values, items, datas, series, startTs, endTs)
  {
    DataShown(values, items, datas, series, startTs, endTs);
    if series.dsType == DERIVE || series.dsType == COUNTER {
      forall k: nat | RateDue(items, series.step, k) && startTs <= items[k].ts < endTs
        ensures Point(items[k].ts, Some((items[k + 1].value - items[k].value) / series.step as real)) in values
      {
        RateShown(values, items, datas, series, startTs, endTs, k);
      }
    }
    if series.dsType == GAUGE {
      forall k | 0 <= k < |items| && Aligned(items[k].ts, series.step) && startTs <= items[k].ts <= endTs
        ensures Point(items[k].ts, Some(items[k].value)) in values <==> Shown(items, datas, series.step, k)
      {
        GaugeShownIff(values, items, datas, series, startTs, endTs, k);
      }
    }
  }

  /** The answer of a query that merges: its slots, that nothing is invented, and, for an aligned cache in any order
      over gap-free data, the value of every slot and which samples are read back: all, when the cache is in order. */
  ghost predicate MergedResult(values: seq<Point>, items: seq<GraphItem>, datas: seq<Point>, series: Series,
                               startTs: int, endTs: int)
    requires series.step >= 1 && items != [] && startTs <= endTs
  {
    && Slots(values, series, startTs, endTs)
    && (forall p :: p in values && p.value.Some? ==> Genuine(p, items, datas, series))
    && (Rooted(items, series.step) && Fetched(datas, items, series.step, startTs, endTs) ==>
          && Answers(values, items, datas, series)
          && ReadBack(values, items, datas, series, startTs, endTs)
          && (series.dsType == GAUGE && Sampled(items, series.step) ==> ReadsBack(values, items, startTs, endTs)))
  }

  /** `indexed` is what the index knows of the counter; `datas` is what the RRD file or the remote node returned. */
  method Query(start: int, end: int, indexed: Option<Series>, items: seq<GraphItem>, datas: seq<Point>, nowTs: int)
    returns (values: seq<Point>)
    requires indexed.Some? ==> indexed.value.step >= 1
    ensures indexed.None? ==> values == []
    ensures indexed.Some? ==>
              var series, step := indexed.value, indexed.value.step;
              var startTs, endTs := WindowStart(start, step), WindowEnd(end, step);
              if EmptyWindow(startTs, endTs, step) then values == []
              else if Consolidated(startTs, step, nowTs) || items == [] then values == datas
              else MergedResult(values, items, datas, series, startTs, endTs)
  {
    if indexed.None? {
      return [];
    }
    var series, step := indexed.value, indexed.value.step;
    var startTs := start - Rem(start, step);
    var endTs := end - Rem(end, step) + step;
    if endTs - startTs - step < 1 {
      return [];
    }
    var lastUpTs := nowTs - Rem(nowTs, step);
    var rra1StartTs := lastUpTs - RRA1_POINT_CNT * step;
    if startTs < rra1StartTs {
      return datas;
    }
    if |items| < 1 {
      return datas;
    }
    AlignProperties(start, step);
    AlignProperties(end, step);
    AlignedNext(endTs - step, step);
    values := Merge(items, datas, series, startTs, endTs);
    if Rooted(items, step) && Fetched(datas, items, step, startTs, endTs) {
      AnswerReadsBack(values, items, datas, series, startTs, endTs);
      if Sampled(items, step) && series.dsType == GAUGE {
        SampledIsReported(items, step);
        GaugeReadBack(values, items, datas, step, startTs, endTs);
      }
    }
  }
}
