# Open-Falcon: a verified model of the monitoring core

This project models the stateful logic of the Open-Falcon monitoring system and proves what it promises.
It follows a sample through the system: how samples are keyed, cached, merged into query answers and
flushed to disk (graph), how a history of them raises and clears alarms (judge), which alarm rules a host
gets from its templates (hbs), and how cluster values and missing data are computed (aggregator, nodata).

| Component | Files | Main results |
|---|---|---|
| graph, query | GraphQuery, GraphRead | Slot by slot, an answer holds what the cache says, else what the RRD file says, else NaN. Nothing is invented. After any run of aligned arrivals it is known exactly which cached gauge samples are read back; when none is accepted twice, the cache gives all of them at every moment exactly when no failing send put samples before older ones. Counter rates are complete exactly when no usable pair of samples follows a gap. |
| graph, store | GraphItems, GraphStore, GraphFlow, DiskSweep | The sharded map is one flat map. In every interleaving of arrivals, flushes and failing sends it is known exactly which samples are accepted, none is lost or doubled, and the lists stay in order exactly when no failing send puts samples before older ones. A full rotation of the sweep leaves no key with enough samples to flush. |
| judge | JudgeHistory, JudgeFunctions, JudgeParse, JudgeAlarm, JudgeRules | A history is the most recent accepted samples. In every run of samples of any keys and rules it is known exactly when an event is sent, and the alarms of each event id consist of episodes 1, 2, .., k and one OK, whose windows do not overlap. Exactly the texts that crash the function parser are known. The expression index agrees with a scan of all rules exactly when no key collides. |
| hbs | TemplateChains, Inheritance | The ancestor walk finds exactly the root paths of fewer than ten templates. Pruning loses no chain and keeps no redundant one. A child overrides its parent, exactly by metric and tags when metrics have no slash and tags are clean. |
| aggregator | ExpressionText, ExpressionParse, CounterValues, ExpressionCompute, Aggregator | Printing, accepting, parsing and evaluating an expression agree, exactly for operand names without a dollar sign. The values are those of the hosts and counters asked for, exactly when no two of them run together to one text. |
| keys | Strings, Decimal, Tags, CacheKey | The round trips of tag strings and cache keys, each with its exact condition. |
| nodata | NodataConfig, Nodata | Whatever rows the database holds, which of them a key's configuration comes from is known, and mock samples are aligned, newer than the stale sample that caused them and, while the key's configured step stays the same, at least a step apart. |

Options, Clock and Seqs hold what the others share. Check the whole project with `dafny verify dfyconfig.toml`.

## How the source is modelled

Go methods that change an object are methods of a class with the same fields, each proved against a function
on the abstract state: the flat map of GraphStore, the list of JudgeHistory, the last events of JudgeAlarm.
What the source promises over whole runs is then proved about those functions. A `list.List` is a sequence,
Go's map iteration takes an arbitrary element of what is left, and a section under a lock is one step.
Floating-point numbers are reals, NaN is `None`, and `%` keeps the sign of the dividend as in Go. The clock,
the outcome of remote calls, `hashKey` and the data read from RRD files are parameters.

Some promises do not hold of the code as it is. Each is stated with its exact condition and an example:

* The rate expansion of a query never gets past a gap, so later rates are lost (modules/graph/api/graph.go:205-213).
  `GraphQuery.RatesCompleteIff`, `GraphQuery.RatesLostAfterGap`.
* A metric that contains `/` can meet the expressions of another metric (modules/judge/store/judge.go:122-128).
  `JudgeRules.JudgeByIndex`, `JudgeRules.SlashedMetricsCollide`.
* A host that has one template twice can keep a chain that another one contains (modules/hbs/rpc/hbs.go:131-149).
  `TemplateChains.PruningIsExact`, `TemplateChains.RepeatedTemplateIsKept`.
* A sample accepted while newer ones are being sent ends up in front of them when the send fails
  (modules/graph/rrdtool/migrate.go:220-262). `GraphFlow.OrderIff`, `GraphFlow.LateSampleSpoilsOrder`.
* The gauge expansion of a query walks such a list from its first sample to the timestamp of its last one, so it
  misses samples out of order, and all of a list that ends before it begins (modules/graph/api/graph.go:216-231).
  `GraphQuery.GaugesCompleteIff`, `GraphRead.ReadableIff`, `GraphRead.LateSamplesAreUnread`.
* A strategy is told apart by a text of its metric and tags, and a metric with `/` can share the text of another metric,
  which then overrides it: metric `a` with tag x valued `1/tags:y=2`, and metric `a/tags:x=1` with tag y valued `2`
  (modules/hbs/rpc/hbs.go:167). `Inheritance.StrategySurvivesIff`, `Inheritance.UuidIff`, `Inheritance.MetricsCollide`.
* The aggregator keeps values under host and counter run together, so the value of counter `1x` on host `web` is found
  for counter `x` on host `web1` (modules/aggregator/cron/query.go:24). `CounterValues.LookupsRightIff`,
  `CounterValues.MixedUp`.
* Tags with a comma, a space, or an equals sign in a key are not read back, nor are cache keys with an
  underscore in a part or a step beyond 32 bits. `Tags.RoundTripIff`, `CacheKey.KeyRoundTripIff`. Every map the
  tag parsers return is read back, so such tags must come from outside them, in a sample whose tags arrive as a map.
* An operand name with a dollar sign is accepted, yet parsed as something else
  (modules/aggregator/cron/run.go:138-162). `ExpressionParse.ParsePrintedIff`, `ExpressionParse.DollarMisread`.
* A bad function text is not always refused: some texts panic (modules/judge/store/func.go:266-295). These are the
  empty text; a text without `#` whose characters but the last are numbers, such as `3)`; a text that ends at its first
  `#`, such as `all(#`; numbers with nothing before the `#`, such as `#3)`; and `lookup` with one number.
  `JudgeParse.CrashesIff`, `JudgeParse.LookupNeedsTwo`.

## Model

| member | source | states |
|---|---|---|
| Clock.AlignProperties | modules/transfer/sender/sender.go:203-205 | Aligning a timestamp gives a multiple of the period less than one period away, towards zero, and leaves aligned timestamps alone. |
| GraphQuery.InWindowSteps | modules/graph/api/graph.go:234-242 | The window's part of gap-free data is gap-free and begins at the window or at the data's own start. |
| GraphQuery.RateSound | modules/graph/api/graph.go:197-215 | Every reported rate is the non-negative difference of two samples exactly one step apart, divided by the step, within the leading gap-free run. |
| GraphQuery.RateIff | modules/graph/api/graph.go:197-215 | In any list, a rate is reported at a time if and only if it is that of two samples one step apart there, within the leading gap-free run and before the last sample. |
| GraphQuery.RatesCompleteIff | modules/graph/api/graph.go:197-215 | Every usable pair of samples is reported if and only if no usable pair comes after a gap. |
| GraphQuery.RatesLostAfterGap | modules/graph/api/graph.go:197-215 | Four samples with one missing between them whose last rate is lost. |
| GraphQuery.GaugeIff | modules/graph/api/graph.go:216-231 | In any list, a gauge value is reported at a time if and only if it is that of a sample there that is reached: each sample up to it is a whole number of steps later than the one before, and the last sample is not before it. |
| GraphQuery.GaugesCompleteIff | modules/graph/api/graph.go:216-231 | Of distinct samples every one is reported with its own timestamp and value if and only if the list is strictly increasing and on the step grid of its first sample. |
| GraphQuery.NothingOfBackward | modules/graph/api/graph.go:216-231 | Of a list whose last sample is before its first nothing is reported. |
| GraphQuery.SampledIsReported | modules/graph/api/graph.go:216-231 | Of an aligned, strictly increasing list every sample is reported, and at each time what is reported is the sample of that time or nothing. |
| GraphQuery.NextRate | modules/graph/api/graph.go:200-213 | One round of the rate loop: the rate of the pair at this time or NaN, and the sample index moves on only over a pair. |
| GraphQuery.ExpandRate | modules/graph/api/graph.go:197-215 | The rates of the cached samples, in any order, on the grid of the first one: in the window, genuine, and at every time exactly what is reported there. |
| GraphQuery.ExpandGauge | modules/graph/api/graph.go:216-231 | The cached gauge samples, in any order, on the grid of the first one: in the window, genuine, and at every time exactly what is reported there, so that samples not reached are absent. |
| GraphQuery.Expand | modules/graph/api/graph.go:189-231 | Either expansion by type; other types contribute nothing. |
| GraphQuery.CutToWindow | modules/graph/api/graph.go:234-242 | Exactly the fetched points inside the window, in order. |
| GraphQuery.FindJunction | modules/graph/api/graph.go:245-255 | The last point before the first cached one, and that none behind it is before the cache. |
| GraphQuery.FillMissing | modules/graph/api/graph.go:257-260 | Only NaN is added, no value changes, and the filled data ends one step before the cache. |
| GraphQuery.OverlayCache | modules/graph/api/graph.go:262-273 | At every time the overlay says what the cache says, and what the data says where the cache has NaN; every point comes from one of them. |
| GraphQuery.MergeCached | modules/graph/api/graph.go:234-274 | Cutting, joining, filling and overlaying together: gap-free, and at every time the cache before the data. |
| GraphQuery.Regrid | modules/graph/api/graph.go:277-294 | One slot per step from the start of the window, each with the merged value of its own timestamp or NaN. |
| GraphQuery.MergedAnswer | modules/graph/api/graph.go:277-294 | A regridded overlay of an expanded cache answers in terms of the samples and the fetched data themselves. |
| GraphQuery.WindowTimes | modules/graph/api/graph.go:136-137 | The multiples of the step in the window are those from the last one not after the start of the request to its end. |
| GraphQuery.EmptyWindowIff | modules/graph/api/graph.go:138-140 | The answer is empty for the window's sake if and only if fewer than two such times are asked for. |
| GraphQuery.ConsolidatedIff | modules/graph/api/graph.go:172-180 | The fetched data is returned as it is if and only if the window begins more than 720 steps before a multiple of the step up to now. |
| GraphQuery.SlotsAreExact | modules/graph/api/graph.go:277-294 | The slots are exactly the multiples of the step from the start of the window, each once and in order: up to and including its end for gauges, below it for other types. |
| GraphQuery.SlotHolds | modules/graph/api/graph.go:277-294 | The slot of each such time holds the reported cached value, else the RRD one, else NaN. |
| GraphQuery.RateShown | modules/graph/api/graph.go:197-294 | Every rate of the leading gap-free run before the last sample, the difference by the step, is among the values if its time is in the window and below its end. |
| GraphQuery.DataShown | modules/graph/api/graph.go:234-294 | Every fetched value that has a slot is among the values, unless the cache reports one for its time. |
| GraphQuery.Merge | modules/graph/api/graph.go:188-295 | Exactly the slots of the window, no value invented, and for a cache in any order each slot's value: the reported cached one, else the RRD one, else NaN. |
| GraphQuery.GaugeShownIff | modules/graph/api/graph.go:216-295 | A cached gauge sample, in any list, appears in the answer if and only if it is reported, or nothing is and the RRD file has the same value. |
| GraphQuery.GaugeReadBack | modules/graph/api/graph.go:216-295 | When all cached gauges are reported, all inside the window appear in the answer with their own timestamp and value, whatever the RRD file says. |
| GraphQuery.Query | modules/graph/api/graph.go:114-301 | Unknown counter, empty window, consolidated data and empty cache as the source treats them; otherwise exactly the slots of the window, the full pointwise answer, and which cached gauges, rates and fetched values are read back. |
| GraphRead.CachedIsAligned | modules/transfer/sender/sender.go:142-176 | After any run the cached samples of a key are aligned when transfer aligned all that arrived for it. |
| GraphRead.CachedIsSampledIff | modules/transfer/sender/sender.go:142-176 | After any run of such arrivals the cached samples are aligned and strictly increasing if and only if the key's list is in order. |
| GraphRead.ReportedIff | modules/graph/api/graph.go:216-231 | After any run of aligned arrivals in which no sample was accepted twice, every cached gauge of a key is reported if and only if the key's list is in order. |
| GraphRead.ReadableIff | modules/graph/api/graph.go:216-231 | In every such run, every cached gauge of every key is reported at every moment if and only if each failing send finds its key empty or holding only newer samples. |
| GraphRead.LateSamplesAreUnread | modules/graph/api/graph.go:216-231 | After a send that failed over any older sample the two samples are cached and neither is reported. |
| GraphRead.QueryStored | modules/graph/api/graph.go:114-301 | On the store that any run of aligned arrivals left: exactly the slots of the window, each with what the cache reports over the fetched data; the rates of the leading run and the fetched values are read back; of the cached gauges exactly those whose slot shows them, and all when the key's list is in order. |
| GraphStore.SafeLinkedList.PopAll | modules/graph/store/linkedlist.go:64-82 | All samples, oldest first, and the list is empty. |
| GraphStore.SafeLinkedList.PushAll | modules/graph/store/linkedlist.go:85-95 | The samples go behind what is there, newest first. |
| GraphStore.SafeLinkedList.FetchAll | modules/graph/store/linkedlist.go:99-112 | All samples, oldest first, with the flags; nothing changes. |
| GraphStore.GraphItemMap.constructor | modules/graph/store/store.go:243-256 | An empty store whose shards stand for the empty map. |
| GraphStore.GraphItemMap.Get | modules/graph/store/store.go:26-32 | The key's list in the one flat map, whichever shard holds it. |
| GraphStore.GraphItemMap.Set | modules/graph/store/store.go:56-61 | The flat map holds the list under the key, in place of any other; every key stays in its own shard. |
| GraphStore.GraphItemMap.Remove | modules/graph/store/store.go:35-46 | The flat map without the key, and whether it was there. |
| GraphStore.GraphItemMap.Len | modules/graph/store/store.go:63-71 | The sizes of the shards add up to the number of keys. |
| GraphStore.GraphItemMap.First | modules/graph/store/store.go:76-91 | The newest sample of the key, if any. |
| GraphStore.GraphItemMap.Back | modules/graph/store/store.go:211-226 | The oldest sample of the key, if any. |
| GraphStore.GraphItemMap.ItemCnt | modules/graph/store/store.go:229-238 | The number of samples of the key. |
| GraphStore.GraphItemMap.GetFlag | modules/graph/store/store.go:108-117 | The key's flags, or that the key is unknown. |
| GraphStore.GraphItemMap.SetFlag | modules/graph/store/store.go:119-129 | Only the key's flags change; an unknown key is an error. |
| GraphStore.GraphItemMap.PushAll | modules/graph/store/store.go:93-103 | The samples go behind the key's list in the flat map; an unknown key is an error. |
| GraphStore.GraphItemMap.PopAll | modules/graph/store/store.go:134-143 | The key's samples, oldest first; the key stays, empty, and no other key changes. |
| GraphStore.GraphItemMap.FetchAll | modules/graph/store/store.go:145-155 | The key's samples and flags; nothing changes. |
| GraphStore.GraphItemMap.PushFront | modules/graph/store/store.go:171-186 | The sample becomes the key's newest; a new key gets a list flagged as missing when its file is elsewhere. |
| GraphStore.GraphItemMap.KeysByIndex | modules/graph/store/store.go:191-206 | Exactly the keys of that shard, without repeats, so the lists over all indices partition the keys. |
| GraphStore.PopPushRestores | modules/graph/store/linkedlist.go:64-95 | Putting back what was taken restores the map exactly. |
| GraphStore.RestoreOrderIff | modules/graph/store/linkedlist.go:85-95 | A restored list is in order if and only if what it already held is newer than what is put back. |
| GraphFlow.HandleItem | modules/graph/api/graph.go:56-112 | A valid sample newer than the key's newest is pushed, anything else changes nothing. |
| GraphFlow.HandleItems | modules/graph/api/graph.go:56-112 | A batch is handled sample by sample. |
| GraphFlow.ArrivalIff | modules/graph/api/graph.go:99-104 | On a list in order, a valid sample becomes the first one if and only if it is newer than every sample of its key; otherwise nothing changes. |
| GraphFlow.ArrivalKeepsOrder | modules/graph/api/graph.go:99-104 | Whatever arrives, every list stays strictly decreasing in time. |
| GraphFlow.AcceptedIff | modules/graph/api/graph.go:56-112 | In every run, while no sample of its key is taken away or put back, a sample is accepted if and only if it is valid and newer than all samples the key held before and all valid ones that arrived for it since. |
| GraphFlow.TrySend | modules/graph/rrdtool/migrate.go:238-250 | At most three calls, successful as soon as one is. |
| GraphFlow.SendKnown | modules/graph/rrdtool/migrate.go:232-261 | On success the key is empty and everything was sent; on failure its list is as before; the sending flag is down. |
| GraphFlow.SendData | modules/graph/rrdtool/migrate.go:220-262 | The same for any key; an unknown key is an error and nothing changes. |
| GraphFlow.SendIsTwoSteps | modules/graph/rrdtool/migrate.go:220-262 | A send is a taking and an end in a run, so the results over runs cover it even when other steps come between. |
| GraphFlow.SamplesConserved | modules/graph/rrdtool/migrate.go:220-262 | In every interleaving of arrivals, flushes and sends, per key: accepted = resident + in flight + handed out, as multisets. |
| GraphFlow.SendRaises | modules/graph/rrdtool/migrate.go:220-236 | A send with samples to send raises the key's sending bit and touches no other bit. |
| GraphFlow.BitsAreTrue | modules/graph/rrdtool/migrate.go:220-262 | In every run the sending bit of a key is down when nothing of it is being sent. |
| GraphFlow.OrderStep | modules/graph/rrdtool/migrate.go:220-262 | One step keeps all lists in order exactly when it is not a failing send that puts samples before older ones. |
| GraphFlow.OrderIff | modules/graph/rrdtool/migrate.go:220-262 | In every run, overlapping sends included, all lists stay in order if and only if each failing send finds its key empty or holding only newer samples; then every batch is strictly increasing in time. |
| GraphFlow.CalmStep | modules/graph/rrdtool/migrate.go:220-262 | While nothing older arrives for a key being sent, and it is sent once at a time, what is being sent stays older than the store. |
| GraphFlow.CalmRunsKeepOrder | modules/graph/rrdtool/migrate.go:220-262 | As a corollary, runs under that rule keep all lists and batches in order. |
| GraphFlow.LateSampleSpoilsOrder | modules/graph/rrdtool/migrate.go:254-254 | Any older sample taken while a newer one is away leaves a list out of order when the send fails. |
| DiskSweep.CommitByKey | modules/graph/rrdtool/rrdtool.go:260-273 | A key that can be taken apart is emptied and written as one batch, if it has samples; another is left alone. |
| DiskSweep.CommitIsTwoSteps | modules/graph/rrdtool/rrdtool.go:260-273 | A commit is a taking and an end in a run, so the results over runs cover it even when other steps come between. |
| DiskSweep.IsDue | modules/graph/rrdtool/rrdtool.go:334-347 | Six samples, or an oldest one that has waited a day. |
| DiskSweep.FlushKey | modules/graph/rrdtool/rrdtool.go:318-327 | One key's turn: committed when forced or due. |
| DiskSweep.TurnsFlush | modules/graph/rrdtool/rrdtool.go:307-329 | Turns over distinct keys empty exactly the due ones, write whole lists, and keep stored plus written samples. |
| DiskSweep.FlushRRD | modules/graph/rrdtool/rrdtool.go:307-329 | Exactly the due keys of the shard are emptied, into whole and ordered batches, with nothing lost. |
| DiskSweep.FlushedEntry | modules/graph/rrdtool/rrdtool.go:307-347 | A flush of a shard empties a list that can be taken apart if it has six samples or one that has waited a day, or if it is forced, and leaves any other alone. |
| DiskSweep.NextVisited | modules/graph/rrdtool/sync_disk.go:47-53 | Reducing the index before or after adding one makes no difference. |
| DiskSweep.VisitedOnce | modules/graph/rrdtool/sync_disk.go:46-53 | Any as many consecutive ticks as there are shards visit each shard exactly once. |
| DiskSweep.Sweep | modules/graph/rrdtool/sync_disk.go:42-59 | The ticks flush the shards in rotation, from any index. |
| DiskSweep.TickedIsSwept | modules/graph/rrdtool/sync_disk.go:42-59 | After any number of ticks, samples are conserved and a visited shard stays without due keys. |
| DiskSweep.EmptiedIff | modules/graph/rrdtool/sync_disk.go:42-59 | After any ticks a list is empty or as before: empty exactly if its key can be taken apart and its shard was visited when it had six samples or one that had waited a day. |
| DiskSweep.FullRotation | modules/graph/rrdtool/sync_disk.go:46-53 | After a rotation no key has six samples, nor one that had waited a day at any moment no later than all of its ticks. |
| DiskSweep.SyncDisk | modules/graph/rrdtool/sync_disk.go:42-59 | After a rotation every series whose cache key can be taken apart has fewer than six samples, none of which had waited a day at its earliest tick; exactly the lists that were overdue at a visit are emptied, every other is left alone, and samples are conserved. |
| CacheKey.KeyRoundTripIff | modules/graph/g/utils.go:24-49 | Splitting undoes forming if and only if checksum and type have no underscore and the step fits in 32 bits. |
| CacheKey.SplitIff | modules/graph/g/utils.go:31-49 | Any text is taken apart if and only if it is three underscore-free parts, the last a 32-bit number. |
| CacheKey.KeyInjective | modules/graph/g/utils.go:24-29 | Such series have different keys. |
| CacheKey.WideStepIsLost | modules/graph/g/utils.go:41-45 | A step beyond 32 bits makes a key that cannot be taken apart. |
| Decimal.NatBack | modules/graph/g/utils.go:24-49 | Decimal digits printed are read back as the same number. |
| Decimal.IntBack | modules/graph/g/utils.go:24-49 | A printed integer is parsed back exactly when it is in range. |
| Decimal.ParseIff | modules/graph/g/utils.go:41-45 | Any text is parsed as a number if and only if it is decimal digits, perhaps behind a sign, and the number is in range. |
| Strings.SplitJoin | common/utils/tags.go:25-99 | Splitting undoes joining when no part holds the separator. |
| Strings.JoinSplit | common/utils/tags.go:61-99 | Joining the parts of a split gives the text back. |
| Strings.WithoutConcat | common/utils/tags.go:65-65 | Dropping a character drops each occurrence of it and keeps every other character in place. |
| Tags.SortedTags | common/utils/tags.go:25-57 | The text is the canonical one whatever order the map is walked in. |
| Tags.EnumerationUnique | common/utils/tags.go:46-49 | A set of keys has one sorted enumeration. |
| Tags.LeIff | common/utils/tags.go:46-49 | The order of the keys is the dictionary's, by characters. |
| Tags.DictedTagstring | common/utils/tags.go:61-76 | Spaces are dropped; a later pair wins; parts without an equals sign add nothing; the map read is always clean. |
| Tags.TagsOfIff | common/utils/tags.go:67-74 | A key has the value of the last part that is a pair for it: all behind the first equals sign. |
| Tags.ReadPairs | common/utils/tags.go:87-96 | Reading stops at the first part that is not a pair. |
| Tags.SplitTagsString | common/utils/tags.go:78-99 | Succeeds if and only if every part is a pair; on failure the tags before the bad part are kept; the map read is always clean. |
| Tags.RoundTripIff | common/utils/tags.go:25-99 | Both parsers invert printing if and only if no key or value holds a separator. |
| Tags.CanonicalInjective | common/utils/tags.go:25-57 | Different clean tag maps have different texts. |
| Tags.CommaIsLost | common/utils/tags.go:25-99 | A map with a comma in a value, as no parser makes it, that is not read back. |
| Tags.StoreKeyIsQueryKey | common/utils/func.go:21-30 | The key a sample is stored under equals the key built from its endpoint and counter. |
| Tags.CounterInjective | common/utils/counter.go:24-29 | For slash-free metrics and clean tags, equal counters mean equal metric and tags. |
| JudgeHistory.SafeLinkedList.PushFrontAndMaintain | modules/judge/store/linkedlist.go:108-133 | A sample is taken if the list is empty or it is positive and newer than the front; the list stays in order and bounded. |
| JudgeHistory.SafeLinkedList.HistoryData | modules/judge/store/linkedlist.go:34-96 | The newest points, values for gauges and rates otherwise, and whether there are enough of them. |
| JudgeHistory.WindowProperties | modules/judge/store/linkedlist.go:34-96 | A window is newest first, begins at the newest sample, and has the asked length exactly when it is enough. |
| JudgeHistory.WindowValues | modules/judge/store/linkedlist.go:34-96 | A gauge's points are the newest samples; otherwise a point's value times the seconds to the older sample is the change from it; and how many points a short history gives. |
| JudgeHistory.PushedDecreasing | modules/judge/store/linkedlist.go:108-133 | A push keeps the list strictly decreasing, so the divisor of a rate is always positive. |
| JudgeHistory.JudgeItemMap.BatchDelete | modules/judge/store/history.go:46-57 | Exactly the listed keys go. |
| JudgeHistory.JudgeItemMap.CleanStale | modules/judge/store/history.go:62-81 | Exactly the keys whose newest sample is older than the limit go. |
| JudgeHistory.JudgeItemMap.PushFrontAndMaintain | modules/judge/store/history.go:86-99 | Only the key's list changes; a first sample is always judged. |
| JudgeHistory.FrontIsHigh | modules/judge/store/linkedlist.go:108-133 | A list takes a sample exactly when it is the first or above all samples ever offered. |
| JudgeHistory.HistoryIsRecentAccepted | modules/judge/store/linkedlist.go:108-133 | After any stream the list is the most recent accepted samples, as many as there are up to the limit, newest first and strictly decreasing. |
| JudgeHistory.KeysAreIndependent | modules/judge/store/history.go:86-99 | In any mixed stream a key's list is that of its own samples. |
| JudgeFunctions.MaxValue | modules/judge/store/func.go:31-36 | The value of a point, and none is larger. |
| JudgeFunctions.MinValue | modules/judge/store/func.go:56-61 | The value of a point, and none is smaller. |
| JudgeFunctions.CheckAll | modules/judge/store/func.go:81-87 | Triggers exactly when all points satisfy the operator. |
| JudgeFunctions.LookupHits | modules/judge/store/func.go:109-117 | Triggers exactly when at least that many, and at least one, satisfy it. |
| JudgeFunctions.SumValues | modules/judge/store/func.go:135-138 | The sum of the points. |
| JudgeFunctions.FirstChange | modules/judge/store/func.go:189-199 | Triggers exactly when some change does; the value is the first triggering change, else the last one. |
| JudgeFunctions.Evaluate | modules/judge/store/func.go:25-239 | The verdict and the reported value of all eight functions on a full window. |
| JudgeFunctions.Compute | modules/judge/store/func.go:25-239 | The same on a list, with the zero values when the history is too short. |
| JudgeFunctions.CountIsCardinality | modules/judge/store/func.go:109-117 | The count of hits is the number of points that satisfy the operator. |
| JudgeFunctions.CountExtremes | modules/judge/store/func.go:109-117 | All hits exactly when every point satisfies it, one hit exactly when some point does. |
| JudgeFunctions.TotalSplits | modules/judge/store/func.go:135-138 | The sum of a window is the sum of its parts, and of one point its value. |
| JudgeFunctions.NeededIsLimit | modules/judge/store/func.go:25-160 | Every function but diff and pdiff reads as many points as its limit says. |
| JudgeFunctions.DiffIff | modules/judge/store/func.go:176-202 | diff(#k) reads k + 1 points, triggers when the difference of the newest from one of the k older ones does, and reports the first such difference, else the one from the oldest. |
| JudgeFunctions.PDiffIff | modules/judge/store/func.go:212-239 | pdiff(#k) reads k + 1 points and triggers when the difference of the newest, in percent of one of the k older ones that is not zero, does. |
| JudgeFunctions.PDiffReports | modules/judge/store/func.go:212-239 | It reports the percentage of the first point that triggers; when none does, of the oldest that is not zero, or zero. |
| JudgeFunctions.OperatorsCompare | modules/judge/store/func.go:300-317 | The operators by the sign of the difference, equality to a ten-thousandth. |
| JudgeFunctions.AllIsFullLookup | modules/judge/store/func.go:75-120 | all(#k) triggers exactly when lookup(#k,k) does. |
| JudgeFunctions.MaxAsLookupOrAll | modules/judge/store/func.go:25-120 | max(#k) above a threshold is lookup(#1,k); below one it is all(#k). |
| JudgeFunctions.MinAsAllOrLookup | modules/judge/store/func.go:50-120 | min(#k) above a threshold is all(#k); below one it is lookup(#1,k). |
| JudgeFunctions.AvgIsScaledSum | modules/judge/store/func.go:129-170 | avg(#k) against a threshold is sum(#k) against k times the threshold. |
| JudgeFunctions.EqualityTolerance | modules/judge/store/func.go:300-317 | Equal and different exclude each other, and both are silent exactly at the tolerance. |
| JudgeParse.Atois | modules/judge/store/func.go:244-254 | All numbers of the list, or an error when one of them is not a 64-bit number. |
| JudgeParse.ParseFuncFromString | modules/judge/store/func.go:266-295 | Panics on exactly the crashing texts, and returns a function exactly when the text stands for it: its name, one character, `#`, its numbers. |
| JudgeParse.NameAndArgs | modules/judge/store/func.go:266-295 | Only the name and the numbers matter, not the characters around them. |
| JudgeParse.ParseBack | modules/judge/store/func.go:266-295 | A printed function is read back as itself exactly when its numbers fit in 64 bits, and refused otherwise. |
| JudgeParse.NameAndArgsPanicIff | modules/judge/store/func.go:266-295 | A text with a name and numbers panics if and only if it is lookup with one number. |
| JudgeParse.LookupNeedsTwo | modules/judge/store/func.go:288-289 | A lookup with one number panics. |
| JudgeParse.CrashesIff | modules/judge/store/func.go:266-295 | Any text panics if and only if it is empty, or has numbers but no `#`, or ends at its first `#`, or has numbers behind it and either nothing before it or the name lookup with a single number. |
| JudgeParse.ReadsIff | modules/judge/store/func.go:266-295 | Any text is read as a function if and only if it has its name before the first `#` and its numbers, perhaps with more, behind. |
| JudgeAlarm.AlarmSender.SendEvent | modules/judge/store/judge.go:75-90 | The event is remembered under its id and queued. |
| JudgeAlarm.AlarmSender.SendEventIfNeed | modules/judge/store/judge.go:210-254 | What is sent and remembered, for every verdict, last event, window, clock and step limit. |
| JudgeAlarm.JudgedTrace | modules/judge/store/judge.go:210-254 | A judgement adds at most one event to its own id's trace and none to another's. |
| JudgeAlarm.EpisodeStep | modules/judge/store/judge.go:210-254 | A sent event continues the open episode by one step, opens one, or closes it. |
| JudgeAlarm.EpisodeForm | modules/judge/store/judge.go:210-254 | In every run the events of an id are episodes PROBLEM 1, .., k with k up to the limit, each closed by one OK, the last perhaps open. |
| JudgeAlarm.RunResponds | modules/judge/store/judge.go:210-254 | After any run a judgement sends exactly this. Not triggered: one OK if and only if the id's last event is a PROBLEM. Triggered with no open episode: PROBLEM 1 if and only if the step limit is not zero. Triggered at step k: PROBLEM k + 1 if and only if k is below the limit, every point of the window is newer than the last event, and the minimal interval has passed. Other ids get nothing. |
| JudgeAlarm.ZeroStepsAreSilent | modules/judge/store/judge.go:216-223 | With step limit zero nothing is ever sent. |
| JudgeAlarm.EventIdInjective | modules/judge/store/judge.go:60-60 | An event id tells the key and which of its strategies or expressions it is for. |
| JudgeAlarm.JudgeItemWithRule | modules/judge/store/judge.go:47-70 | One rule: the reported value, and a judgement when there is enough history. |
| JudgeAlarm.JudgeAll | modules/judge/store/judge.go:11-42 | All rules of the moment, one after the other, on the same history. |
| JudgeAlarm.Receive | modules/judge/rpc/receiver.go:21-30 | A sample goes through the history of its key and all rules to the alarms exactly as the run model says. |
| JudgeAlarm.JudgedOwn | modules/judge/store/judge.go:210-254 | A judgement acts on the events of its own id as if there were no others, and is not seen by another id. |
| JudgeAlarm.JudgedWellSpaced | modules/judge/store/judge.go:233-245 | One judgement keeps events spaced and windows disjoint. |
| JudgeAlarm.AlarmWindowsAreDisjoint | modules/judge/store/judge.go:11-254 | In every run of samples of any keys, judged by any rules, and for every event id: event times strictly increase, and the next PROBLEM of an episode uses only points newer than the last event and comes at least the minimal interval after it. |
| JudgeAlarm.FeedsFormEpisodes | modules/judge/store/judge.go:11-254 | In every such run the events of each id are episodes no longer than the limit of its rule. |
| JudgeAlarm.FeedResponds | modules/judge/store/judge.go:11-254 | In every run of samples, for each rule of an arriving sample: a new high of its key with as many points as the rule reads is answered as above, on the function's verdict over the key's newest points; any other sample sends nothing for the rule. |
| JudgeAlarm.FeedLeavesOthers | modules/judge/store/judge.go:11-254 | A sample sends nothing for an event id that none of its rules is for. |
| JudgeAlarm.JudgementIs | modules/judge/store/judge.go:47-70 | What a rule's judgement consists of: the points the function reads, its verdict on them, the rule's limit, and the event id and time. |
| JudgeAlarm.TraceIsOfId | modules/judge/store/judge.go:210-254 | The trace of an id is the status and step of its events, in order. |
| JudgeAlarm.RunHistory | modules/judge/rpc/receiver.go:21-30 | The histories of such a run are those of its samples alone. |
| JudgeRules.AddExpression | modules/judge/cron/strategy.go:87-96 | The index gains the expression under each of its keys and nothing else. |
| JudgeRules.RebuildExpressionMap | modules/judge/cron/strategy.go:85-99 | An expression is indexed under a key exactly when it is one of the given ones and the key is one of its own. |
| JudgeRules.BuildKeys | modules/judge/store/judge.go:122-128 | Exactly the keys of the item's tags and of its endpoint. |
| JudgeRules.CopyItemTags | modules/judge/store/judge.go:168-177 | The item's tags with its endpoint; a tag of that name wins. |
| JudgeRules.TagsRelated | modules/judge/store/judge.go:151-156 | Whether every tag is there with the same value. |
| JudgeRules.FilterRelated | modules/judge/store/judge.go:133-166 | Exactly the expressions whose tags the item carries. |
| JudgeRules.HasTagsIff | modules/judge/store/judge.go:133-177 | Carrying the tags in the copied tag map means: the item has each tag with that value, its endpoint standing in for a missing tag of that name. |
| JudgeRules.JudgeNew | modules/judge/store/judge.go:104-112 | Ids already handled are skipped, all others judged once. |
| JudgeRules.CheckExpression | modules/judge/store/judge.go:92-117 | Each id is judged at most once, and exactly the ids met under one of the item's keys. |
| JudgeRules.MeetsIff | modules/judge/store/judge.go:92-177 | An expression is met exactly when a scan selects it or its key collides with one of the item's. |
| JudgeRules.PlainMetricsDoNotCollide | modules/judge/store/judge.go:122-128 | Metrics without a slash never collide. |
| JudgeRules.SlashedMetricsCollide | modules/judge/store/judge.go:122-128 | An expression on another metric that is judged. |
| JudgeRules.JudgeByIndex | modules/judge/store/judge.go:92-177 | Rebuilding and checking judge exactly the expressions of a scan, and the colliding ones; none of those when metrics have no slash. |
| JudgeRules.RebuildStrategyMap | modules/judge/cron/strategy.go:43-64 | Under each key the strategies a scan finds, in order. |
| JudgeRules.CheckStrategy | modules/judge/store/judge.go:16-42 | With slash-free hosts exactly the strategies given for the item's endpoint, on its metric, every tag of which the item has with the same value, in the order and as often as they are given; in general those of a scan under endpoint and metric. |
| JudgeRules.CarriedIsRelated | modules/judge/store/judge.go:16-42 | The strategies a scan under endpoint and metric finds and whose tags the item carries are exactly the related ones of all that are given. |
| JudgeRules.ScanIsOwn | modules/judge/cron/strategy.go:43-64 | With slash-free host names a key finds only that host's strategies on that metric. |
| TemplateChains.Walk | modules/hbs/cache/strategies.go:98-115 | At most ten steps up, cyclic relations included. |
| TemplateChains.ParentIds | modules/hbs/cache/strategies.go:94-127 | Empty exactly for an unknown template or ten steps; otherwise a root-first path of at most nine distinct templates ending in the given one. |
| TemplateChains.Reverse | modules/hbs/cache/strategies.go:121-126 | The walk, root first. |
| TemplateChains.ChainIff | modules/hbs/cache/strategies.go:94-127 | The chains are exactly the root paths of fewer than ten templates. |
| TemplateChains.PathUnique | modules/hbs/cache/strategies.go:94-127 | Only one root path leads to a template. |
| TemplateChains.PathDistinct | modules/hbs/cache/strategies.go:94-127 | A root path never repeats a template. |
| TemplateChains.SliceEq | modules/hbs/rpc/hbs.go:216-226 | Equality of two chains. |
| TemplateChains.SliceLt | modules/hbs/rpc/hbs.go:230-237 | Containment of two chains, as sets. |
| TemplateChains.SliceContains | modules/hbs/rpc/hbs.go:205-212 | Membership. |
| TemplateChains.IsValidBucket | modules/hbs/rpc/hbs.go:132-148 | The scan that keeps or drops one chain. |
| TemplateChains.Prune | modules/hbs/rpc/hbs.go:131-149 | Exactly the kept chains, in order. |
| TemplateChains.SurvivesIff | modules/hbs/rpc/hbs.go:132-148 | A chain is kept if and only if each chain around it comes after an equal twin. |
| TemplateChains.WithinIsOrder | modules/hbs/rpc/hbs.go:131-149 | Containment of chains is the prefix order, so two chains never drop each other. |
| TemplateChains.CoveredByKept | modules/hbs/rpc/hbs.go:131-149 | Every chain, repeated or not, lies within a kept one. |
| TemplateChains.IrredundantIff | modules/hbs/rpc/hbs.go:131-149 | No kept chain contains another if and only if each repeated chain has a larger one before it. |
| TemplateChains.DroppedIff | modules/hbs/rpc/hbs.go:131-149 | Among distinct chains one is dropped exactly when another contains it. |
| TemplateChains.CollectBuckets | modules/hbs/rpc/hbs.go:111-118 | The non-empty chains of the host's templates, in order. |
| TemplateChains.BucketsArePaths | modules/hbs/rpc/hbs.go:111-118 | They are short root paths, distinct for distinct templates. |
| TemplateChains.ChainIsCovered | modules/hbs/rpc/hbs.go:111-149 | Every template with a valid chain lies in a kept one. |
| TemplateChains.PruningIsExact | modules/hbs/rpc/hbs.go:111-149 | For distinct templates pruning drops exactly the contained chains; in general it is exact under the stated condition. |
| TemplateChains.RepeatedBuckets | modules/hbs/rpc/hbs.go:111-118 | The chains of a host with templates 1, 1 and 2, where 2 is a child of 1. |
| TemplateChains.RepeatedTemplateIsKept | modules/hbs/rpc/hbs.go:135-141 | That host keeps a chain that another of its chains contains. |
| Inheritance.Tpl2Strategies | modules/hbs/rpc/hbs.go:87-100 | By template exactly the strategies that have one. |
| Inheritance.GroupByUuid | modules/hbs/rpc/hbs.go:165-174 | A template's strategies by uuid, in order. |
| Inheritance.Overlay | modules/hbs/rpc/hbs.go:157-180 | Per uuid, what the chain leaves. |
| Inheritance.ChildOverridesParent | modules/hbs/rpc/hbs.go:157-180 | For any way of telling strategies apart: under a key exactly the strategies of the youngest template that defines the key are left. |
| Inheritance.SurvivorIff | modules/hbs/rpc/hbs.go:157-180 | For any way of telling strategies apart: one survives if and only if a template of the chain has it and no younger one has a strategy of its key. |
| Inheritance.UuidIff | modules/hbs/rpc/hbs.go:167-167 | For slash-free metrics and clean tags, two uuid texts are equal if and only if metric and tags are. |
| Inheritance.UuidsCollide | modules/hbs/rpc/hbs.go:167-167 | A family of pairs of strategies with clean tags and different metrics that share a uuid. |
| Inheritance.MetricsCollide | modules/hbs/rpc/hbs.go:167-167 | One such pair: metric `a` with tag x valued `1/tags:y=2`, and metric `a/tags:x=1` with tag y valued `2`. |
| Inheritance.StrategySurvivesIff | modules/hbs/rpc/hbs.go:157-180 | A strategy survives if and only if a template of the chain has it, and no younger one has a strategy of the same metric and tags or one with another metric or tags and the same uuid. |
| Inheritance.PlainSurvivesIff | modules/hbs/rpc/hbs.go:157-180 | When all metrics of the chain are slash-free and all tags clean, a strategy survives if and only if a template has it and no younger one has its metric and tags. |
| Inheritance.EmitList | modules/hbs/rpc/hbs.go:184-197 | New ids are emitted once, with the id, metric and tags of their strategy, and with the youngest template unless it is the strategy's own. |
| Inheritance.EmitBucket | modules/hbs/rpc/hbs.go:151-200 | Exactly the new ids among a chain's survivors are emitted, whatever the order of the map. |
| Inheritance.EmittedNext | modules/hbs/rpc/hbs.go:151-200 | Another chain emits exactly the ids no earlier chain left. |
| Inheritance.CalcInheritStrategies | modules/hbs/rpc/hbs.go:102-201 | Unique ids, none missed that a kept chain leaves, and each strategy is one that the first kept chain to leave its id leaves: same id, metric and tags, and the chain's youngest template unless that is its own. |
| ExpressionText.SumBack | modules/aggregator/cron/run.go:191-196 | A printed sum is recognised with the same operands and operators, whatever follows it other than an operator. |
| ExpressionText.SumSound | modules/aggregator/cron/run.go:191-196 | Whatever is recognised as a sum is the text of that sum. |
| ExpressionText.ComparisonBack | modules/aggregator/cron/run.go:198-209 | A printed comparison is recognised as itself. |
| ExpressionText.RecogniseBack | modules/aggregator/cron/run.go:191-209 | A printed expression is recognised as itself, bracketed or not. |
| ExpressionText.RecogniseSound | modules/aggregator/cron/run.go:191-209 | Whatever is recognised is the print of a well-formed expression. |
| ExpressionText.ExpressionValidIff | modules/aggregator/cron/run.go:180-217 | Accepted texts are exactly the host count, the numbers and the printed expressions, without wide brackets. |
| ExpressionParse.Pieces | modules/aggregator/cron/run.go:148-149 | No piece of a split holds a separator, and a leading separator leaves an empty first piece. |
| ExpressionParse.OnePieceIff | modules/aggregator/cron/run.go:148-152 | There is a second piece, as the slice of parse needs, exactly when there is a separator. |
| ExpressionParse.SumPieces | modules/aggregator/cron/run.go:148-152 | A printed sum without dollar signs in names falls apart into its operands and operators in turn. |
| ExpressionParse.DealInterleaved | modules/aggregator/cron/run.go:152-158 | Dealing the pieces out alternately gives operands and operators back. |
| ExpressionParse.Parse | modules/aggregator/cron/run.go:138-162 | The inner pieces dealt out alternately and the last one as the mode; nothing when nothing is to be computed. |
| ExpressionParse.NeedComputeIff | modules/aggregator/cron/run.go:176-217 | Among accepted texts exactly the expressions need computing. |
| ExpressionParse.ParsePrintedIff | modules/aggregator/cron/run.go:138-162 | Parsing a printed expression gives its operands, operators and mode if and only if no operand holds a dollar sign. |
| ExpressionParse.ParseIsSafe | modules/aggregator/cron/run.go:138-162 | Dollar signs or not, the mode is the comparison and there is an operator for every operand but the first. |
| ExpressionParse.DollarMisread | modules/aggregator/cron/run.go:138-162 | Names that are accepted as one operand and parsed as two. |
| CounterValues.QueryCounterLast | modules/aggregator/cron/query.go:7-28 | The values in time, each under its host and counter run together, a later one in place of an earlier one. |
| CounterValues.CollectedIff | modules/aggregator/cron/query.go:18-25 | A key has the value of the last response in time that goes to it, and none without one. |
| CounterValues.SeparableIsRight | modules/aggregator/cron/query.go:18-25 | When no two of the asked hosts and counters run together to one text, each lookup finds what came for its host and counter. |
| CounterValues.LookupsRightIff | modules/aggregator/cron/query.go:18-25 | All lookups are right for every response to the asked hosts and counters if and only if no two of them run together to one text. |
| CounterValues.MixedUp | modules/aggregator/cron/query.go:24-24 | Whenever two run together, a value that came for one is found for the other, for which none came. |
| ExpressionCompute.ParseFloatBack | modules/aggregator/cron/computer.go:46-46 | A decimal is read as all its digits scaled by the digits after the point. |
| ExpressionCompute.FindPrinted | modules/aggregator/cron/computer.go:42-43 | Sign and number of a printed comparison are found again, so the match is never nil. |
| ExpressionCompute.CompareSumMeaning | modules/aggregator/cron/computer.go:40-58 | Comparing with a printed comparison is what the comparison says. |
| ExpressionCompute.Found | modules/aggregator/cron/computer.go:60-69 | As many values as operands exactly when every operand has one. |
| ExpressionCompute.QueryOperands | modules/aggregator/cron/computer.go:60-69 | The values present, in order. |
| ExpressionCompute.FoundAll | modules/aggregator/cron/computer.go:60-69 | When none is missing, each value is that of its own operand. |
| ExpressionCompute.Compute | modules/aggregator/cron/computer.go:9-38 | Nothing without operands or with a value missing; else what is added less what is subtracted, or one or zero when compared. |
| ExpressionCompute.TotalSplit | modules/aggregator/cron/computer.go:21-28 | The left-to-right value over the operands' own values is the sum of the added ones less the sum of the subtracted ones, as found. |
| ExpressionCompute.ComputedMeaning | modules/aggregator/cron/computer.go:9-58 | Evaluating what parse should return gives what the expression means over its operands' own values, when those are what is found under host and operand run together. |
| ExpressionCompute.AcceptedIsComputable | modules/aggregator/cron/computer.go:21-43 | No accepted expression makes compute run out of operators or match nothing, whatever its names. |
| Aggregator.CleaningRemovesBlanks | modules/aggregator/cron/run.go:164-171 | Cleaning removes exactly the blanks, wherever they are. |
| Aggregator.BlankFree | modules/aggregator/cron/run.go:164-171 | A text without blanks is left alone. |
| Aggregator.OperatorsValid | modules/aggregator/cron/run.go:219-227 | Whether all operators are plus or minus. |
| Aggregator.OverHosts | modules/aggregator/cron/run.go:55-96 | Both sums and the number of hosts, over exactly the hosts for which both sides have a value. |
| Aggregator.BothAreThose | modules/aggregator/cron/run.go:55-96 | Counting and summing over the hosts with both values is counting and summing over those hosts alone. |
| Aggregator.AskedIsRecent | modules/aggregator/cron/run.go:49-49 | The values asked for are those of the last two steps. |
| Aggregator.WorkerRun | modules/aggregator/cron/run.go:15-136 | What is pushed, or that nothing is, for any two texts, hosts and answer; for typed texts of proper sides whose hosts and counters do not run together, the quotient their author meant, times the denominator the numerator, over the values of the last two steps. |
| Aggregator.SideMeaning | modules/aggregator/cron/run.go:138-217 | The text of a side is accepted and stands for what its author meant, for the hosts whose values are found as they came. |
| Aggregator.RatioIsQuotient | modules/aggregator/cron/run.go:98-136 | What is pushed times the denominator is the numerator; something is pushed if and only if a side asks the hosts, some host has both values, and the denominator is not zero. |
| Aggregator.BlankAnywhere | modules/aggregator/cron/run.go:164-171 | A blank typed anywhere makes no difference. |
| Aggregator.CleanRoundMeaning | modules/aggregator/cron/run.go:21-136 | On cleaned texts and values found as they came, a round pushes the quotient of the two sides as their author meant them, over the hosts that have both. |
| Aggregator.RoundMeaning | modules/aggregator/cron/run.go:15-136 | The same for the texts as typed, blanks included, and the values that came for each host and counter, when no two of those run together to one text. |
| NodataConfig.CandidatesGuarded | modules/nodata/config/service/mockcfg.go:42-65 | Only rows with a metric, the type GAUGE and a step of at least one become configurations. |
| NodataConfig.CandidatesIff | modules/nodata/config/service/mockcfg.go:42-65 | A configuration is a candidate if and only if some row with a metric, the type GAUGE and a step of at least one says it, field by field, for one of its endpoints. |
| NodataConfig.GetMockCfgFromDB | modules/nodata/config/service/mockcfg.go:25-84 | For each key the winning candidate, in the order of the rows. |
| NodataConfig.ChosenIsOwn | modules/nodata/config/service/mockcfg.go:63-80 | A key has a configuration exactly when it has a candidate, and it is the candidate left after each later one has tried to take its place. |
| NodataConfig.WinningIsWinner | modules/nodata/config/service/mockcfg.go:63-80 | The candidate left is the first host when the first candidate is a group and a host follows, otherwise the first candidate. |
| NodataConfig.ChosenIsWinner | modules/nodata/config/service/mockcfg.go:63-80 | So from any rows a key gets exactly that configuration. |
| NodataConfig.SyncNdConfig | modules/nodata/config/config_cron.go:43-64 | The judge sees exactly the chosen configurations that have an endpoint, each under its own key. |
| NodataConfig.LoadedHasRow | modules/nodata/config/config_cron.go:43-64 | Every configuration the judge can see has an endpoint and the values of such a row: its own metric, step and mock. |
| NodataConfig.RowIsLoaded | modules/nodata/config/config_cron.go:43-64 | For every such row the key of each of its endpoints is loaded, unless the endpoint begins with a slash. |
| NodataConfig.LoadedIff | modules/nodata/config/config_cron.go:43-64 | In general a key is loaded if and only if its winning candidate has an endpoint. |
| NodataConfig.LoadedIsGuarded | modules/nodata/config/service/mockcfg.go:145-163 | Every configuration the judge can see has a metric, the type GAUGE and a step of at least one. |
| NodataConfig.HostWins | modules/nodata/config/service/mockcfg.go:165-170 | A configuration for a host wins over one for a group, wherever it comes. |
| Nodata.GenTsPlace | modules/nodata/judge/judge_cron.go:89-95 | A mock timestamp is aligned and between two and three steps in the past. |
| Nodata.GenTsSpaced | modules/nodata/judge/judge_cron.go:89-95 | A step later the mock timestamp is at least a step later. |
| Nodata.StaleMockIsNewer | modules/nodata/judge/judge_cron.go:72-103 | The mock for a stale sample is newer than it and at least two steps in the past. |
| Nodata.Judge.TurnOk | modules/nodata/judge/status.go:33-53 | The key is good from now on, its counter zero. |
| Nodata.Judge.TurnNodata | modules/nodata/judge/status.go:55-75 | The key is missing from now on, its counter one up. |
| Nodata.Judge.JudgeKey | modules/nodata/judge/judge_cron.go:46-81 | One key's status and mock follow from its own entry, configuration and sample. |
| Nodata.Judge.JudgeRound | modules/nodata/judge/judge_cron.go:43-82 | A round judges every key on its own. |
| Nodata.SpacedStep | modules/nodata/judge/judge_cron.go:64-80 | One round keeps the mocks of a key aligned and a step apart. |
| Nodata.GuardedRunsAreSpaced | modules/nodata/judge/judge_cron.go:43-95 | With configurations that passed the check, a fixed step and a clock that does not go back, the mocks of a key are aligned and strictly increase by at least the step. |
| Nodata.MocksAreSpaced | modules/nodata/judge/judge_cron.go:43-95 | Whatever rows the database holds in each round: while the configured step of a key stays the same, its mocks are aligned to it and strictly increase by at least the step. |
| Nodata.MockIsNewer | modules/nodata/judge/judge_cron.go:72-103 | A mock sent for a stale sample never covers that sample. |
| Nodata.MockIff | modules/nodata/judge/judge_cron.go:43-95 | In every run a round sends a mock if and only if the key was collected within three steps, and three minutes at least, its sample is a mock or older than that, and a step or more has passed since the last round that found it good or sent a mock. |
| Nodata.CntIsSinceGood | modules/nodata/judge/status.go:33-75 | The counter is the number of mocks since the key was last good. |
| Nodata.OverdueRoundsMock | modules/nodata/judge/judge_cron.go:59-77 | While a key is overdue, every round a step or more after the last sends its mock. |
| Nodata.RoundMocks | modules/nodata/judge/judge_cron.go:43-82 | A round sends for a key what the key's own view calls for, once. |
| Nodata.Run | modules/nodata/judge/judge_cron.go:23-82 | Over any rounds the judge's status and mocks of each key are those of the key's own run. |

## Left out

- RPC, HTTP, Redis, MySQL and RRD file access: arguments, outcomes of calls, or values returned.
- The remote and migration paths of a query: the data they return is the argument of `Query`; how it is fetched is not modelled.
- PullByKey, fetch_rrd, FlushAll, Getitems and the sweep with migration on: a key being fetched or moved to another node by the sweep.
- GraphRead.ReadableIff: a sample accepted twice has a twin to be read back from, so the equivalence is for samples accepted once; what is read back of any list is `GraphQuery.GaugeIff`.
- GraphFlow.SamplesConserved: no key is removed in a run, because the source drops the samples of a removed key.
- DiskSweep.CommitByKey: a batch given to the disk writer counts as written, because the source ignores errors of the writer.
- DiskSweep.FullRotation: nothing arrives during the rotation, because an arrival can bring a visited shard up to the limit again.
- Races between concurrent requests on one key: a section under a lock is one step, and the graph's sends are two steps with anything in between; push and judgement in the judge are one step.
- Flags: the bits for a failed and a running fetch are carried and never set, because only fetches set them.
- IEEE rounding, infinities and overflow: floating-point numbers are reals, and NaN is `None`.
- JudgeParse.ParsedFunc: a character stands for one byte, so a multi-byte last character, which the source cuts in two, is not modelled.
- Rules whose function text is refused: the judge skips them, so the rules of a sample are those that were read.
- The hosts that a nodata configuration's object stands for: part of the database row.
- Aliasing of events and of nodata status records: both are values, so changing one in place under a reader is not modelled.
- The pushed tags, actions and templates of an event, and its message: carried along unchanged by the source.
- JudgeAlarm.AlarmWindowsAreDisjoint: a sample is judged once by each rule, which hbs (unique strategy ids per host) and the judge (expressions already handled) see to.
- CleanStale within runs of alarms: after a key is dropped an older sample may be accepted, so event times could fall.
- Hosts, groups and maintenance windows of GetStrategies, and GetBuiltinMetrics: selections by set membership.
- hashKey and Md5: hashKey is a parameter, and Md5 sums are any text.
- IsValidString of an arriving sample: a flag of the sample.
- The regular expression engine: the fixed patterns are recognised by functions tied to the languages they describe.
- QueryLastPoints and HostnamesByID: the interface's answer and the host names are arguments of a round.
- Integer overflow of timestamps and counters: integers are unbounded, except where texts are parsed.
- Alarm combiner, message senders, agent collectors, dashboards, module start and stop: plumbing without invariants of its own.
