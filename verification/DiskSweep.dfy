/** Flushing the graph cache to disk, shard by shard (modules/graph/rrdtool/rrdtool.go, sync_disk.go), with
    migration off. A key whose text cannot be taken apart has no file name and is never flushed. */
module DiskSweep {
  import opened GraphItems
  import opened Options
  import opened Seqs
  import opened GraphStore
  import opened GraphFlow
  import opened Clock
  import CacheKey

  const FLUSH_MIN_COUNT := 6
  const FLUSH_MAX_WAIT := 86400

  /** A batch for the disk writer. */
  function Write<K>(key: K, items: seq<GraphItem>): Flight<K> {
    Flight(key, items, NO_FLAGS, false)
  }

  /** What has been handed to the disk writer, in order. */
  class Disk<K> {
    var Writes: seq<Flight<K>>

    constructor ()
      ensures Writes == []
    {
      Writes := [];
    }

    method FlushFile(key: K, items: seq<GraphItem>)
      modifies this
      ensures Writes == old(Writes) + [Write(key, items)]
    {
      Writes := Writes + [Write(key, items)];
    }
  }

  predicate ShouldFlush<K>(c: Flat<K>, key: K, now: int) {
    || CountOf(c, key) >= FLUSH_MIN_COUNT
    || (BackOf(c, key).Some? && BackOf(c, key).value.ts <= now - FLUSH_MAX_WAIT)
  }

  // ----- accounting -----

  /** Per key, stored and written samples together. */
  function Total<K(==)>(c: Flat<K>, ws: seq<Flight<K>>, key: K): multiset<GraphItem> {
    ResidentOf(c, key) + CarriedBy(ws, key)
  }

  /** Lists are kept or emptied. */
  ghost predicate Emptied<K(!new)>(c: Flat<K>, c': Flat<K>) {
    c'.Keys == c.Keys && forall k :: k in c ==> c'[k] == c[k] || c'[k] == Entry([], c[k].flag)
  }

  /** No sample is lost or doubled, and nothing written is taken back. */
  ghost predicate Balanced<K(!new)>(c: Flat<K>, ws: seq<Flight<K>>, c': Flat<K>, ws': seq<Flight<K>>) {
    ws <= ws' && forall k :: Total(c', ws', k) == Total(c, ws, k)
  }

  /** Once a key is not due it stays so while lists are only kept or emptied. */
  lemma StaysSettled<K(!new)>(c: Flat<K>, c': Flat<K>, key: K, now: int)
    requires Emptied(c, c') && !ShouldFlush(c, key, now)
    ensures !ShouldFlush(c', key, now)
  {
  }

  /** The write that a pop leads to. */
  function WritesAfter<K>(c: Flat<K>, ws: seq<Flight<K>>, key: K): seq<Flight<K>> {
    if Batch(c, key) == [] then ws else ws + [Write(key, Batch(c, key))]
  }

  lemma PopKeepsTotal<K>(c: Flat<K>, ws: seq<Flight<K>>, key: K, watched: K)
    ensures Total(Popped(c, key), WritesAfter(c, ws, key), watched) == Total(c, ws, watched)
  {
    if Batch(c, key) != [] {
      CarriedNext(ws, Write(key, Batch(c, key)), watched);
      BatchMultiset(c, key);
    }
  }

  lemma PopBalances<K(!new)>(c: Flat<K>, ws: seq<Flight<K>>, key: K)
    ensures Balanced(c, ws, Popped(c, key), WritesAfter(c, ws, key))
  {
    forall k ensures Total(Popped(c, key), WritesAfter(c, ws, key), k) == Total(c, ws, k) {
      PopKeepsTotal(c, ws, key, k);
    }
  }

  // ----- flushing one key, one shard -----

  method CommitByKey<K(==,!new)>(store: GraphItemMap<K>, disk: Disk<K>, parses: K -> bool, key: K)
    requires store.Valid()
    modifies store.Objects(), disk
    ensures store.Valid() && store.Lists == old(store.Lists)
    ensures store.Contents() == if parses(key) then Popped(old(store.Contents()), key) else old(store.Contents())
    ensures disk.Writes ==
            if parses(key) then WritesAfter(old(store.Contents()), old(disk.Writes), key) else old(disk.Writes)
  {
    if !parses(key) {
      return;
    }
    var items := store.PopAll(key);
    if |items| == 0 {
      return;
    }
    disk.FlushFile(key, items);
  }

  /** A commit is a taking for the disk and its end in a run, so the results over runs cover it even when other steps
      come between. */
  lemma CommitIsTwoSteps<K>(s: State<K>, key: K)
    ensures var s' := Next(Next(s, TakeForDisk(key)), Finish(|s.flights|));
            && s'.store == Popped(s.store, key) && s'.handed == WritesAfter(s.store, s.handed, key)
            && s'.flights == s.flights && s'.accepted == s.accepted
  {
    var s1, f := Next(s, TakeForDisk(key)), Write(key, Batch(s.store, key));
    if Batch(s.store, key) == [] {
      assert Popped(s.store, key) == s.store;
    } else {
      assert s1.flights == s.flights + [f] && Without(s1.flights, |s.flights|) == s.flights;
    }
  }

  /** The keys a flush of a shard empties. */
  ghost predicate Due<K>(c: Flat<K>, parses: K -> bool, force: bool, now: int, key: K) {
    key in c && parses(key) && (force || ShouldFlush(c, key, now))
  }

  /** Exactly the due keys among `keys` are emptied. */
  ghost predicate FlushedExactly<K(!new)>(c: Flat<K>, c': Flat<K>, parses: K -> bool, force: bool, now: int,
                                          keys: iset<K>) {
    && c'.Keys == c.Keys
    && forall k :: k in c ==> c'[k] == if k in keys && Due(c, parses, force, now, k) then Entry([], c[k].flag) else c[k]
  }

  predicate Hit<K>(c: Flat<K>, parses: K -> bool, force: bool, now: int, key: K) {
    parses(key) && (force || ShouldFlush(c, key, now))
  }

  lemma FlushedNext<K(!new)>(c: Flat<K>, c1: Flat<K>, parses: K -> bool, force: bool, now: int, keys: iset<K>, key: K)
    requires FlushedExactly(c, c1, parses, force, now, keys) && key in c && key !in keys
    ensures var after := if Hit(c1, parses, force, now, key) then Popped(c1, key) else c1;
            FlushedExactly(c, after, parses, force, now, keys + iset{key})
  {
    assert c1[key] == c[key];
  }

  /** Store and writes after one key has had its turn. */
  function AfterTurn<K>(c: Flat<K>, ws: seq<Flight<K>>, parses: K -> bool, force: bool, now: int,
                        key: K): (Flat<K>, seq<Flight<K>>) {
    if Hit(c, parses, force, now, key) then (Popped(c, key), WritesAfter(c, ws, key)) else (c, ws)
  }

  method IsDue<K(==,!new)>(store: GraphItemMap<K>, key: K, now: int) returns (due: bool)
    requires store.Valid()
    ensures due == ShouldFlush(store.Contents(), key, now)
  {
    var count := store.ItemCnt(key);
    if count >= FLUSH_MIN_COUNT {
      return true;
    }
    var deadline := now - FLUSH_MAX_WAIT;
    var back := store.Back(key);
    return back.Some? && back.value.ts <= deadline;
  }

  method FlushKey<K(==,!new)>(store: GraphItemMap<K>, disk: Disk<K>, parses: K -> bool, key: K, force: bool, now: int)
    requires store.Valid()
    modifies store.Objects(), disk
    ensures store.Valid() && store.Lists == old(store.Lists)
    ensures (store.Contents(), disk.Writes) ==
            AfterTurn(old(store.Contents()), old(disk.Writes), parses, force, now, key)
  {
    var due := force;
    if !due {
      due := IsDue(store, key, now);
    }
    if due {
      CommitByKey(store, disk, parses, key);
    }
  }

  /** A written batch is the whole list of its key, oldest sample first. */
  ghost predicate WholeLists<K>(c: Flat<K>, ws: seq<Flight<K>>, from: nat) {
    forall i :: from <= i < |ws| ==> ws[i].items == Batch(c, ws[i].key)
  }

  /** What a flush of the keys in `done` has achieved so far. */
  ghost predicate FlushedSoFar<K(!new)>(c: Flat<K>, ws: seq<Flight<K>>, c1: Flat<K>, ws1: seq<Flight<K>>,
                                        parses: K -> bool, force: bool, now: int, done: iset<K>) {
    FlushedExactly(c, c1, parses, force, now, done) && Balanced(c, ws, c1, ws1) && WholeLists(c, ws1, |ws|)
  }

  lemma FlushedSoFarNext<K(!new)>(c: Flat<K>, ws: seq<Flight<K>>, c1: Flat<K>, ws1: seq<Flight<K>>, parses: K -> bool,
                                  force: bool, now: int, done: iset<K>, key: K)
    requires FlushedSoFar(c, ws, c1, ws1, parses, force, now, done) && key in c && key !in done
    ensures var after := AfterTurn(c1, ws1, parses, force, now, key);
            FlushedSoFar(c, ws, after.0, after.1, parses, force, now, done + iset{key})
  {
    FlushedNext(c, c1, parses, force, now, done, key);
    PopBalances(c1, ws1, key);
    assert c1[key] == c[key];
  }

  /** Store and writes after several keys have had their turn. */
  function AfterTurns<K>(c: Flat<K>, ws: seq<Flight<K>>, parses: K -> bool, force: bool, now: int,
                         keys: seq<K>): (Flat<K>, seq<Flight<K>>) {
    if keys == [] then (c, ws)
    else
      var before := AfterTurns(c, ws, parses, force, now, keys[..|keys| - 1]);
      AfterTurn(before.0, before.1, parses, force, now, keys[|keys| - 1])
  }

  lemma {:induction false} TurnsFlush<K(!new)>(c: Flat<K>, ws: seq<Flight<K>>, parses: K -> bool, force: bool,
                                               now: int, keys: seq<K>)
    requires forall i, j :: 0 <= i < j < |keys| ==> keys[i] != keys[j]
    requires forall k :: k in keys ==> k in c
    ensures var after := AfterTurns(c, ws, parses, force, now, keys);
            FlushedSoFar(c, ws, after.0, after.1, parses, force, now, iset k | k in keys)
  {
    if keys != [] {
      var init, key := keys[..|keys| - 1], keys[|keys| - 1];
      TurnsFlush(c, ws, parses, force, now, init);
      var before := AfterTurns(c, ws, parses, force, now, init);
      FlushedSoFarNext(c, ws, before.0, before.1, parses, force, now, (iset k | k in init), key);
      assert (iset k | k in keys) == (iset k | k in init) + iset{key};
    }
  }

  ghost function InShard<K(!new)>(store: GraphItemMap<K>, c: Flat<K>, idx: nat): iset<K>
    requires store.Size >= 1
  {
    iset k | k in c && store.Shard(k) == idx
  }

  /** Flushes the keys of one shard that are due. */
  method FlushRRD<K(==,!new)>(store: GraphItemMap<K>, disk: Disk<K>, parses: K -> bool, idx: nat, force: bool, now: int)
    requires store.Valid() && idx < store.Size
    modifies store.Objects(), disk
    ensures store.Valid() && store.Lists == old(store.Lists)
    ensures FlushedSoFar(old(store.Contents()), old(disk.Writes), store.Contents(), disk.Writes, parses, force, now,
                         InShard(store, old(store.Contents()), idx))
  {
    ghost var c, ws := store.Contents(), disk.Writes;
    var keys := store.KeysByIndex(idx);
    for n := 0 to |keys|
      invariant store.Valid() && store.Lists == old(store.Lists)
      invariant (store.Contents(), disk.Writes) == AfterTurns(c, ws, parses, force, now, keys[..n])
    {
      assert keys[..n + 1][..n] == keys[..n];
      FlushKey(store, disk, parses, keys[n], force, now);
    }
    assert keys[..|keys|] == keys;
    TurnsFlush(c, ws, parses, force, now, keys);
    assert (iset k | k in keys) == InShard(store, c, idx);
  }

  // ----- the sweep over all shards -----

  /** The index visited `t` ticks after `start`. */
  function VisitedAt(start: nat, t: nat, size: nat): nat
    requires size >= 1
  {
    (start + t) % size
  }

  /** Any `size` consecutive ticks visit each shard exactly once. */
  lemma VisitedOnce(start: nat, size: nat, shard: nat) returns (t: nat)
    requires shard < size
    ensures t < size && VisitedAt(start, t, size) == shard
    ensures forall t' :: 0 <= t' < size && VisitedAt(start, t', size) == shard ==> t' == t
  {
    var q, r := start / size, start % size;
    t := if r <= shard then shard - r else shard - r + size;
    forall t' | 0 <= t' < size ensures VisitedAt(start, t', size) == if r + t' < size then r + t' else r + t' - size {
      if r + t' < size {
        assert start + t' == q * size + (r + t');
        ModMultiple(q, r + t', size);
      } else {
        assert start + t' == (q + 1) * size + (r + t' - size);
        ModMultiple(q + 1, r + t' - size, size);
      }
    }
  }

  /** The rotating index: reduced, used, incremented. */
  lemma NextVisited(idx: nat, size: nat)
    requires size >= 1
    ensures (idx % size + 1) % size == (idx + 1) % size
  {
    var q, r := idx / size, idx % size;
    if r + 1 < size {
      assert idx + 1 == q * size + (r + 1);
      ModMultiple(q, r + 1, size);
      ModMultiple(0, r + 1, size);
    } else {
      assert idx + 1 == (q + 1) * size + 0;
      ModMultiple(q + 1, 0, size);
      ModMultiple(1, 0, size);
    }
  }

  /** Every key whose shard was visited at tick `t` has nothing left that was due then. */
  ghost predicate Settled<K(!new)>(store: GraphItemMap<K>, c0: Flat<K>, c: Flat<K>, parses: K -> bool, start: nat,
                                   nows: seq<int>) {
    store.Size >= 1 &&
    forall t, k :: 0 <= t < |nows| && k in c0 && parses(k) && store.Shard(k) == VisitedAt(start, t, store.Size) ==>
      !ShouldFlush(c, k, nows[t])
  }

  ghost predicate Swept<K(!new)>(store: GraphItemMap<K>, c0: Flat<K>, ws0: seq<Flight<K>>, c: Flat<K>,
                                 ws: seq<Flight<K>>, parses: K -> bool, start: nat, nows: seq<int>) {
    Emptied(c0, c) && Balanced(c0, ws0, c, ws) && Settled(store, c0, c, parses, start, nows)
  }

  /** One more tick. */
  lemma SweptNext<K(!new)>(store: GraphItemMap<K>, c0: Flat<K>, ws0: seq<Flight<K>>, c: Flat<K>, ws: seq<Flight<K>>,
                           c': Flat<K>, ws': seq<Flight<K>>, parses: K -> bool, start: nat, nows: seq<int>, now: int)
    requires Swept(store, c0, ws0, c, ws, parses, start, nows)
    requires FlushedSoFar(c, ws, c', ws', parses, false, now,
                          InShard(store, c, VisitedAt(start, |nows|, store.Size)))
    ensures Swept(store, c0, ws0, c', ws', parses, start, nows + [now])
  {
    assert Emptied(c, c');
    forall t, k | 0 <= t < |nows| + 1 && k in c0 && parses(k) && store.Shard(k) == VisitedAt(start, t, store.Size)
      ensures !ShouldFlush(c', k, (nows + [now])[t])
    {
      if t < |nows| {
        StaysSettled(c, c', k, nows[t]);
      }
    }
  }

  /** The ticks of a sweep, each a flush of the shard whose turn it is. */
  ghost predicate Ticked<K(!new)>(store: GraphItemMap<K>, c0: Flat<K>, ws0: seq<Flight<K>>, c: Flat<K>,
                                  ws: seq<Flight<K>>, parses: K -> bool, start: nat, nows: seq<int>)
    decreases |nows|
  {
    store.Size >= 1 &&
    if nows == [] then c == c0 && ws == ws0
    else
      var t := |nows| - 1;
      exists c1, ws1 ::
        && Ticked(store, c0, ws0, c1, ws1, parses, start, nows[..t])
        && FlushedSoFar(c1, ws1, c, ws, parses, false, nows[t], InShard(store, c1, VisitedAt(start, t, store.Size)))
  }

  lemma {:induction false} TickedIsSwept<K(!new)>(store: GraphItemMap<K>, c0: Flat<K>, ws0: seq<Flight<K>>, c: Flat<K>,
                                                  ws: seq<Flight<K>>, parses: K -> bool, start: nat, nows: seq<int>)
    requires Ticked(store, c0, ws0, c, ws, parses, start, nows)
    ensures Swept(store, c0, ws0, c, ws, parses, start, nows)
    decreases |nows|
  {
    if nows != [] {
      var t := |nows| - 1;
      var c1, ws1 :|
        && Ticked(store, c0, ws0, c1, ws1, parses, start, nows[..t])
        && FlushedSoFar(c1, ws1, c, ws, parses, false, nows[t], InShard(store, c1, VisitedAt(start, t, store.Size)));
      TickedIsSwept(store, c0, ws0, c1, ws1, parses, start, nows[..t]);
      SweptNext(store, c0, ws0, c1, ws1, c, ws, parses, start, nows[..t], nows[t]);
      assert nows[..t] + [nows[t]] == nows;
    }
  }

  lemma TickedNext<K(!new)>(store: GraphItemMap<K>, c0: Flat<K>, ws0: seq<Flight<K>>, c: Flat<K>, ws: seq<Flight<K>>,
                            c': Flat<K>, ws': seq<Flight<K>>, parses: K -> bool, start: nat, nows: seq<int>, t: nat)
    requires t < |nows| && store.Size >= 1 && Ticked(store, c0, ws0, c, ws, parses, start, nows[..t])
    requires FlushedSoFar(c, ws, c', ws', parses, false, nows[t], InShard(store, c, VisitedAt(start, t, store.Size)))
    ensures Ticked(store, c0, ws0, c', ws', parses, start, nows[..t + 1])
  {
    assert nows[..t + 1][..t] == nows[..t];
  }

  /** The ticks of syncDisk at clock readings `nows`, from any index. */
  method Sweep<K(==,!new)>(store: GraphItemMap<K>, disk: Disk<K>, parses: K -> bool, start: nat, nows: seq<int>)
    returns (idx: nat)
    requires store.Valid()
    modifies store.Objects(), disk
    ensures store.Valid() && store.Lists == old(store.Lists)
    ensures Ticked(store, old(store.Contents()), old(disk.Writes), store.Contents(), disk.Writes, parses, start, nows)
    ensures idx % store.Size == VisitedAt(start, |nows|, store.Size)
  {
    ghost var c0, ws0 := store.Contents(), disk.Writes;
    idx := start;
    for t := 0 to |nows|
      invariant store.Valid() && store.Lists == old(store.Lists)
      invariant Ticked(store, c0, ws0, store.Contents(), disk.Writes, parses, start, nows[..t])
      invariant idx % store.Size == VisitedAt(start, t, store.Size)
    {
      ghost var c, ws := store.Contents(), disk.Writes;
      NextVisited(start + t, store.Size);
      idx := idx % store.Size;
      FlushRRD(store, disk, parses, idx, false, nows[t]);
      TickedNext(store, c0, ws0, c, ws, store.Contents(), disk.Writes, parses, start, nows, t);
      idx := idx + 1;
    }
    assert nows[..|nows|] == nows;
  }

  /** Six samples, or an oldest one that has waited a day. */
  predicate Overdue(items: seq<GraphItem>, now: int) {
    |items| >= 6 || (items != [] && items[|items| - 1].ts <= now - 86400)
  }

  /** The shard is visited at a tick when the samples are overdue. */
  ghost predicate CaughtOverdue(items: seq<GraphItem>, shard: nat, size: nat, start: nat, nows: seq<int>)
    requires size >= 1
  {
    exists t :: 0 <= t < |nows| && (start + t) % size == shard && Overdue(items, nows[t])
  }

  lemma CaughtNext(items: seq<GraphItem>, shard: nat, size: nat, start: nat, nows: seq<int>)
    requires size >= 1 && nows != []
    ensures var n := |nows| - 1;
            CaughtOverdue(items, shard, size, start, nows) <==>
            CaughtOverdue(items, shard, size, start, nows[..n])
            || ((start + n) % size == shard && Overdue(items, nows[n]))
  {
    var n := |nows| - 1;
    if t :| 0 <= t < |nows| && (start + t) % size == shard && Overdue(items, nows[t]) {
      assert t < n ==> nows[..n][t] == nows[t];
    }
    if t :| 0 <= t < n && (start + t) % size == shard && Overdue(items, nows[..n][t]) {
      assert nows[..n][t] == nows[t];
    }
  }

  /** One flush of a shard empties what is overdue, or everything when it is forced. */
  lemma FlushedEntry<K(!new)>(c: Flat<K>, c': Flat<K>, parses: K -> bool, force: bool, now: int, keys: iset<K>, key: K)
    requires FlushedExactly(c, c', parses, force, now, keys) && key in c
    ensures key in c'
    ensures c'[key] == if key in keys && parses(key) && (force || Overdue(c[key].items, now))
                       then Entry([], c[key].flag) else c[key]
  {
  }

  /** After any ticks exactly the keys are emptied that can be taken apart and whose shard was visited when their
      samples were overdue; every other list, such as one of fewer than six samples none of which has waited a day, is
      left alone. */
  lemma {:induction false} EmptiedIff<K(!new)>(store: GraphItemMap<K>, c0: Flat<K>, ws0: seq<Flight<K>>, c: Flat<K>,
                                               ws: seq<Flight<K>>, parses: K -> bool, start: nat, nows: seq<int>,
                                               key: K)
    requires Ticked(store, c0, ws0, c, ws, parses, start, nows) && key in c0
    ensures store.Size >= 1 && key in c
    ensures c[key] ==
            if parses(key) && CaughtOverdue(c0[key].items, store.Shard(key), store.Size, start, nows)
            then Entry([], c0[key].flag) else c0[key]
    decreases |nows|
  {
    if nows != [] {
      var t := |nows| - 1;
      var c1, ws1 :|
        && Ticked(store, c0, ws0, c1, ws1, parses, start, nows[..t])
        && FlushedSoFar(c1, ws1, c, ws, parses, false, nows[t], InShard(store, c1, VisitedAt(start, t, store.Size)));
      EmptiedIff(store, c0, ws0, c1, ws1, parses, start, nows[..t], key);
      FlushedEntry(c1, c, parses, false, nows[t], InShard(store, c1, VisitedAt(start, t, store.Size)), key);
      CaughtNext(c0[key].items, store.Shard(key), store.Size, start, nows);
    }
  }

  /** After a full rotation no key that can be taken apart has as many samples as make a flush, nor a sample
      that had waited too long when the rotation began. */
  lemma FullRotation<K(!new)>(store: GraphItemMap<K>, c0: Flat<K>, ws0: seq<Flight<K>>, c: Flat<K>, ws: seq<Flight<K>>,
                              parses: K -> bool, start: nat, nows: seq<int>, since: int, key: K)
    requires Ticked(store, c0, ws0, c, ws, parses, start, nows) && |nows| >= store.Size
    requires forall t :: 0 <= t < |nows| ==> since <= nows[t]
    requires parses(key)
    ensures Rested(c, key, since)
  {
    TickedIsSwept(store, c0, ws0, c, ws, parses, start, nows);
    var t := VisitedOnce(start, store.Size, store.Shard(key));
    if key in c0 {
      NotDueIsRested(c, key, nows[t], since);
    }
  }

  lemma NotDueIsRested<K>(c: Flat<K>, key: K, now: int, since: int)
    requires !ShouldFlush(c, key, now) && since <= now
    ensures Rested(c, key, since)
  {
  }

  // ----- with the real keys -----

  predicate Parses(key: string) {
    CacheKey.SplitRrdCacheKey(key).Some?
  }

  /** The earliest of the clock readings: when the rotation began. */
  ghost function Earliest(nows: seq<int>): (e: int)
    requires nows != []
    ensures e in nows && forall t :: 0 <= t < |nows| ==> e <= nows[t]
  {
    var last := |nows| - 1;
    if last == 0 then nows[0]
    else
      var e := Earliest(nows[..last]);
      assert forall t :: 0 <= t < last ==> nows[t] == nows[..last][t];
      if nows[last] < e then nows[last] else e
  }

  /** Fewer samples than make a flush, none of which had waited too long at the time. */
  predicate Rested<K>(c: Flat<K>, key: K, since: int) {
    !Overdue(ItemsOf(c, key), since)
  }

  /** What the ticks leave of a key. */
  ghost function LeftOf(store: GraphItemMap<string>, c0: Flat<string>, start: nat, nows: seq<int>, key: string): Entry
    requires key in c0 && store.Size >= 1
  {
    if Parses(key) && CaughtOverdue(c0[key].items, store.Shard(key), store.Size, start, nows)
    then Entry([], c0[key].flag) else c0[key]
  }

  ghost predicate EmptiedExactly(store: GraphItemMap<string>, c0: Flat<string>, c: Flat<string>, start: nat,
                                 nows: seq<int>)
    requires store.Size >= 1
  {
    forall key :: key in c0 ==> key in c && c[key] == LeftOf(store, c0, start, nows, key)
  }

  /** One rotation of the sweep leaves fewer than six samples, and none that had waited a day when it began, of every
      series whose key was formed from an underscore-free checksum and type and a 32-bit step. */
  method SyncDisk(store: GraphItemMap<string>, disk: Disk<string>, start: nat, nows: seq<int>) returns (idx: nat)
    requires store.Valid() && nows != [] && |nows| >= store.Size
    modifies store.Objects(), disk
    ensures store.Valid()
    ensures Balanced(old(store.Contents()), old(disk.Writes), store.Contents(), disk.Writes)
    ensures forall p :: CacheKey.Splittable(p) ==>
              Rested(store.Contents(), CacheKey.FormRrdCacheKey(p), Earliest(nows))
    ensures EmptiedExactly(store, old(store.Contents()), store.Contents(), start, nows)
  {
    ghost var c0, ws0 := store.Contents(), disk.Writes;
    idx := Sweep(store, disk, Parses, start, nows);
    TickedIsSwept(store, c0, ws0, store.Contents(), disk.Writes, Parses, start, nows);
    forall key | key in c0
      ensures key in store.Contents() && store.Contents()[key] == LeftOf(store, c0, start, nows, key)
    {
      EmptiedIff(store, c0, ws0, store.Contents(), disk.Writes, Parses, start, nows, key);
    }
    forall p | CacheKey.Splittable(p)
      ensures Rested(store.Contents(), CacheKey.FormRrdCacheKey(p), Earliest(nows))
    {
      CacheKey.KeyRoundTripIff(p);
      FullRotation(store, c0, ws0, store.Contents(), disk.Writes, Parses, start, nows, Earliest(nows),
                   CacheKey.FormRrdCacheKey(p));
    }
  }
}
