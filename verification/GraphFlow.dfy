/** How samples enter and leave the graph cache: handleItems (modules/graph/api/graph.go), send_data
    (modules/graph/rrdtool/migrate.go), and the disk sweep (modules/graph/rrdtool/rrdtool.go, sync_disk.go). */
module GraphFlow {
  import opened GraphItems
  import opened Options
  import opened Seqs
  import opened GraphStore

  // ----- arrival -----

  /** A sample with its key; `valid` says that it is there and its endpoint and counter are printable. */
  datatype Incoming<K> = Incoming(key: K, item: GraphItem, valid: bool, missing: bool)

  predicate Taken<K>(c: Flat<K>, a: Incoming<K>) {
    a.valid && (FirstOf(c, a.key).None? || FirstOf(c, a.key).value.ts < a.item.ts)
  }

  function Handled<K>(c: Flat<K>, a: Incoming<K>): Flat<K> {
    if Taken(c, a) then Pushed(c, a.key, a.item, a.missing) else c
  }

  function HandledAll<K>(c: Flat<K>, batch: seq<Incoming<K>>): Flat<K> {
    if batch == [] then c else Handled(HandledAll(c, batch[..|batch| - 1]), batch[|batch| - 1])
  }

  /** Whether the store already has a sample of the key that is as new. */
  method IsLate<K(==,!new)>(store: GraphItemMap<K>, a: Incoming<K>) returns (late: bool)
    requires store.Valid()
    ensures a.valid ==> (Taken(store.Contents(), a) <==> !late)
  {
    var first := store.First(a.key);
    late := first.Some? && a.item.ts <= first.value.ts;
  }

  method HandleItem<K(==,!new)>(store: GraphItemMap<K>, a: Incoming<K>)
    requires store.Valid()
    modifies store`Lists, store.A, store.Objects()
    ensures store.Valid() && fresh(store.Objects() - old(store.Objects()))
    ensures store.Contents() == Handled(old(store.Contents()), a)
  {
    if !a.valid {
      return;
    }
    var late := IsLate(store, a);
    if late {
      return;
    }
    store.PushFront(a.key, a.item, a.missing);
  }

  method HandleItems<K(==,!new)>(store: GraphItemMap<K>, batch: seq<Incoming<K>>)
    requires store.Valid()
    modifies store`Lists, store.A, store.Objects()
    ensures store.Valid() && fresh(store.Objects() - old(store.Objects()))
    ensures store.Contents() == HandledAll(old(store.Contents()), batch)
  {
    for i := 0 to |batch|
      invariant store.Valid() && fresh(store.Objects() - old(store.Objects()))
      invariant store.Contents() == HandledAll(old(store.Contents()), batch[..i])
    {
      assert batch[..i + 1][..i] == batch[..i];
      HandleItem(store, batch[i]);
    }
    assert batch[..|batch|] == batch;
  }

  ghost predicate AllDecreasing<K(!new)>(c: Flat<K>) {
    forall k :: k in c ==> Decreasing(c[k].items)
  }

  /** Arrival keeps every list in order, whatever arrives. */
  lemma {:induction false} ArrivalKeepsOrder<K(!new)>(c: Flat<K>, batch: seq<Incoming<K>>)
    requires AllDecreasing(c)
    ensures AllDecreasing(HandledAll(c, batch))
  {
    if batch != [] {
      ArrivalKeepsOrder(c, batch[..|batch| - 1]);
    }
  }

  function ItemsOf<K>(c: Flat<K>, key: K): seq<GraphItem> {
    if key in c then c[key].items else []
  }

  ghost predicate AllBefore(items: seq<GraphItem>, t: int) {
    forall i :: 0 <= i < |items| ==> items[i].ts < t
  }

  /** On a list in order, a valid sample becomes the first one if it is newer than every sample of its key; otherwise
      nothing changes. A new key remembers whether its file is elsewhere. */
  lemma ArrivalIff<K>(c: Flat<K>, a: Incoming<K>)
    requires Decreasing(ItemsOf(c, a.key))
    ensures Handled(c, a) ==
            if a.valid && AllBefore(ItemsOf(c, a.key), a.item.ts) then
              c[a.key := Entry([a.item] + ItemsOf(c, a.key),
                               if a.key in c then c[a.key].flag else Flags(a.missing, false, false, false))]
            else c
  {
    assert ItemsOf(c, a.key) == [] ==> [a.item] + ItemsOf(c, a.key) == [a.item];
  }

  // ----- sending a key to another node -----

  function Raised(flag: Flags): Flags {
    flag.(sending := true)
  }

  function Lowered(flag: Flags): Flags {
    flag.(sending := false)
  }

  /** Up to three calls; `tries` are their outcomes. */
  method TrySend(tries: seq<bool>) returns (ok: bool)
    requires |tries| == 3
    ensures ok <==> true in tries
  {
    for i := 0 to 3
      invariant true !in tries[..i]
    {
      if tries[i] {
        return true;
      }
    }
    assert tries[..3] == tries;
    return false;
  }

  /** What a send leaves of a key: nothing when it went through, else what was there; the flag bit is down. */
  function Sent<K>(c: Flat<K>, key: K, ok: bool): Flat<K> {
    if key in c then c[key := Entry(if ok then [] else c[key].items, Lowered(c[key].flag))] else c
  }

  lemma SentIs<K>(c: Flat<K>, key: K, up: Flat<K>, back: Flat<K>, ok: bool, c': Flat<K>)
    requires key in c && up == c[key := Entry([], Raised(c[key].flag))]
    requires back == if ok then up else Restored(up, key, Batch(c, key))
    requires c' == Flagged(back, key, Lowered(c[key].flag))
    ensures c' == Sent(c, key, ok)
  {
    ReversedTwice(c[key].items);
    assert [] + c[key].items == c[key].items;
  }

  lemma TakenOutIs<K>(c: Flat<K>, key: K, flag: Flags, c': Flat<K>)
    requires key in c && c' == Popped(Flagged(c, key, flag), key)
    ensures c' == c[key := Entry([], flag)]
  {
  }

  method TakeOut<K(==,!new)>(store: GraphItemMap<K>, key: K, flag: Flags) returns (items: seq<GraphItem>)
    requires store.Valid() && key in store.Contents()
    modifies store.Objects()
    ensures store.Valid() && store.Lists == old(store.Lists)
    ensures items == Batch(old(store.Contents()), key)
    ensures store.Contents() == old(store.Contents())[key := Entry([], Raised(flag))]
  {
    ghost var c := store.Contents();
    var known := store.SetFlag(key, Raised(flag));
    items := store.PopAll(key);
    TakenOutIs(c, key, Raised(flag), store.Contents());
  }

  /** Ends the send of what was taken out of `c`. */
  method EndSend<K(==,!new)>(store: GraphItemMap<K>, key: K, flag: Flags, items: seq<GraphItem>, ok: bool,
                             ghost c: Flat<K>)
    requires store.Valid() && key in c && flag == c[key].flag && items == Batch(c, key)
    requires store.Contents() == c[key := Entry([], Raised(flag))]
    modifies store.Objects()
    ensures store.Valid()
    ensures store.Contents() == Sent(c, key, ok)
  {
    ghost var up := store.Contents();
    var known: bool;
    if !ok {
      known := store.PushAll(key, items);
    }
    ghost var back := store.Contents();
    known := store.SetFlag(key, Lowered(flag));
    SentIs(c, key, up, back, ok, store.Contents());
  }

  method SendKnown<K(==,!new)>(store: GraphItemMap<K>, key: K, flag: Flags, tries: seq<bool>)
    returns (ok: bool, sent: seq<GraphItem>)
    requires store.Valid() && |tries| == 3
    requires key in store.Contents() && flag == store.Contents()[key].flag
    modifies store.Objects()
    ensures store.Valid()
    ensures ok <==> old(store.Contents())[key].items == [] || true in tries
    ensures sent == (if ok then Batch(old(store.Contents()), key) else [])
    ensures store.Contents() == Sent(old(store.Contents()), key, ok)
  {
    ghost var c := store.Contents();
    var items := TakeOut(store, key, flag);
    if |items| > 0 {
      ok := TrySend(tries);
    } else {
      ok := true;
    }
    EndSend(store, key, flag, items, ok, c);
    sent := if ok then items else [];
  }

  /** Takes the samples of a key, tries to send them, and puts them back if all tries fail. */
  method SendData<K(==,!new)>(store: GraphItemMap<K>, key: K, tries: seq<bool>) returns (ok: bool, sent: seq<GraphItem>)
    requires store.Valid() && |tries| == 3
    modifies store.Objects()
    ensures store.Valid()
    ensures var c := old(store.Contents());
            && (ok <==> key in c && (c[key].items == [] || true in tries))
            && sent == (if ok then Batch(c, key) else [])
            && store.Contents() == Sent(c, key, ok)
  {
    var flag := store.GetFlag(key);
    if flag.None? {
      return false, [];
    }
    ok, sent := SendKnown(store, key, flag.value, tries);
  }

  // ----- runs: arrivals, flushes and sends in any interleaving -----

  /** Samples taken out of the store for a key: on their way to the disk, or being sent to another node. */
  datatype Flight<K> = Flight(key: K, items: seq<GraphItem>, flag: Flags, sending: bool)

  datatype Step<K> =
    | Receive(arrival: Incoming<K>)
    | TakeForDisk(key: K)
    | TakeForSend(key: K)
    | Finish(n: nat)
    | Fail(n: nat)

  datatype State<K> = State(store: Flat<K>, flights: seq<Flight<K>>, handed: seq<Flight<K>>,
                            accepted: seq<(K, GraphItem)>)

  function Without<T>(s: seq<T>, n: nat): seq<T>
    requires n < |s|
  {
    s[..n] + s[n + 1..]
  }

  /** A finished send drops its flag bit; so does a failed one. */
  function Landed<K>(c: Flat<K>, f: Flight<K>): Flat<K> {
    if f.sending then Flagged(c, f.key, Lowered(f.flag)) else c
  }

  function Next<K>(s: State<K>, step: Step<K>): State<K> {
    match step
    case Receive(a) =>
      if Taken(s.store, a) then s.(store := Handled(s.store, a), accepted := s.accepted + [(a.key, a.item)]) else s
    case TakeForDisk(key) =>
      if Batch(s.store, key) == [] then s
      else s.(store := Popped(s.store, key), flights := s.flights + [Flight(key, Batch(s.store, key), NO_FLAGS, false)])
    case TakeForSend(key) =>
      if key !in s.store then s
      else
        var flag, batch := s.store[key].flag, Batch(s.store, key);
        if batch == [] then s.(store := Flagged(s.store, key, Lowered(flag)))
        else s.(store := Popped(Flagged(s.store, key, Raised(flag)), key),
                flights := s.flights + [Flight(key, batch, flag, true)])
    case Finish(n) =>
      if n >= |s.flights| then s
      else State(Landed(s.store, s.flights[n]), Without(s.flights, n), s.handed + [s.flights[n]], s.accepted)
    case Fail(n) =>
      if n >= |s.flights| || !s.flights[n].sending then s
      else
        var f := s.flights[n];
        s.(store := Landed(Restored(s.store, f.key, f.items), f), flights := Without(s.flights, n))
  }

  function Run<K>(steps: seq<Step<K>>): State<K> {
    if steps == [] then State(map[], [], [], []) else Next(Run(steps[..|steps| - 1]), steps[|steps| - 1])
  }

  /** A whole send is a taking followed by its end: SendData in two steps of a run. */
  lemma SendIsTwoSteps<K>(s: State<K>, key: K, ok: bool)
    requires key in s.store && s.store[key].items != []
    ensures var n := |s.flights|;
            var s' := Next(Next(s, TakeForSend(key)), if ok then Finish(n) else Fail(n));
            && s'.store == Sent(s.store, key, ok) && s'.flights == s.flights && s'.accepted == s.accepted
            && s'.handed ==
                if ok then s.handed + [Flight(key, Batch(s.store, key), s.store[key].flag, true)] else s.handed
  {
    var n, f := |s.flights|, Flight(key, Batch(s.store, key), s.store[key].flag, true);
    var s1 := Next(s, TakeForSend(key));
    assert s1.flights == s.flights + [f] && Without(s1.flights, n) == s.flights;
    TakenOutIs(s.store, key, Raised(f.flag), s1.store);
    var back := if ok then s1.store else Restored(s1.store, key, f.items);
    SentIs(s.store, key, s1.store, back, ok, Landed(back, f));
  }

  // ----- conservation -----

  function AcceptedOf<K(==)>(accepted: seq<(K, GraphItem)>, key: K): multiset<GraphItem> {
    if accepted == [] then multiset{}
    else
      var last := accepted[|accepted| - 1];
      AcceptedOf(accepted[..|accepted| - 1], key) + if last.0 == key then multiset{last.1} else multiset{}
  }

  function CarriedBy<K(==)>(fs: seq<Flight<K>>, key: K): multiset<GraphItem> {
    if fs == [] then multiset{}
    else
      var last := fs[|fs| - 1];
      CarriedBy(fs[..|fs| - 1], key) + if last.key == key then multiset(last.items) else multiset{}
  }

  function ResidentOf<K(==)>(c: Flat<K>, key: K): multiset<GraphItem> {
    if key in c then multiset(c[key].items) else multiset{}
  }

  lemma CarriedNext<K>(fs: seq<Flight<K>>, f: Flight<K>, key: K)
    ensures CarriedBy(fs + [f], key) == CarriedBy(fs, key) + if f.key == key then multiset(f.items) else multiset{}
  {
    assert (fs + [f])[..|fs|] == fs;
  }

  lemma WithoutInit<T>(s: seq<T>, n: nat)
    requires n + 1 < |s|
    ensures Without(s, n) == Without(s[..|s| - 1], n) + [s[|s| - 1]] && s[..|s| - 1][n] == s[n]
  {
  }

  lemma SwapParts<T>(a: multiset<T>, b: multiset<T>, c: multiset<T>)
    ensures (a + b) + c == (a + c) + b
  {
  }

  lemma {:induction false} CarriedWithout<K>(fs: seq<Flight<K>>, n: nat, key: K)
    requires n < |fs|
    ensures CarriedBy(fs, key) ==
            CarriedBy(Without(fs, n), key) + if fs[n].key == key then multiset(fs[n].items) else multiset{}
  {
    var init, last := fs[..|fs| - 1], |fs| - 1;
    if n == last {
      assert Without(fs, n) == init;
    } else {
      CarriedWithout(init, n, key);
      WithoutInit(fs, n);
      CarriedNext(Without(init, n), fs[last], key);
      SwapParts(CarriedBy(Without(init, n), key), if fs[n].key == key then multiset(fs[n].items) else multiset{},
                if fs[last].key == key then multiset(fs[last].items) else multiset{});
    }
  }

  ghost predicate Conserved<K>(s: State<K>, key: K) {
    AcceptedOf(s.accepted, key) == ResidentOf(s.store, key) + CarriedBy(s.flights, key) + CarriedBy(s.handed, key)
  }

  /** A flight belongs to a key the store has: no key is removed while its samples are away. */
  ghost predicate Homed<K>(s: State<K>) {
    forall i :: 0 <= i < |s.flights| ==> s.flights[i].key in s.store
  }

  lemma BatchMultiset<K>(c: Flat<K>, key: K)
    ensures multiset(Batch(c, key)) == ResidentOf(c, key)
  {
    if key in c {
      ReversedMultiset(c[key].items);
    }
  }

  lemma PushedResident<K>(c: Flat<K>, a: Incoming<K>, key: K)
    ensures ResidentOf(Pushed(c, a.key, a.item, a.missing), key) ==
            ResidentOf(c, key) + if a.key == key then multiset{a.item} else multiset{}
  {
    if a.key in c {
      assert multiset([a.item] + c[a.key].items) == multiset{a.item} + multiset(c[a.key].items);
    }
  }

  lemma AcceptedNext<K>(accepted: seq<(K, GraphItem)>, x: (K, GraphItem), key: K)
    ensures AcceptedOf(accepted + [x], key) ==
            AcceptedOf(accepted, key) + if x.0 == key then multiset{x.1} else multiset{}
  {
    assert (accepted + [x])[..|accepted|] == accepted;
  }

  lemma ReceiveConserves<K>(s: State<K>, a: Incoming<K>, key: K)
    requires Conserved(s, key)
    ensures Conserved(Next(s, Receive(a)), key)
  {
    PushedResident(s.store, a, key);
    AcceptedNext(s.accepted, (a.key, a.item), key);
  }

  /** Samples that leave the store for a flight stay in the account. */
  lemma DepartureConserves<K>(s: State<K>, f: Flight<K>, c: Flat<K>, key: K)
    requires Conserved(s, key) && f.items == Batch(s.store, f.key)
    requires ResidentOf(c, key) == if f.key == key then multiset{} else ResidentOf(s.store, key)
    ensures Conserved(s.(store := c, flights := s.flights + [f]), key)
  {
    BatchMultiset(s.store, f.key);
    CarriedNext(s.flights, f, key);
  }

  lemma TakeConserves<K>(s: State<K>, step: Step<K>, key: K)
    requires step.TakeForDisk? || step.TakeForSend?
    requires Conserved(s, key)
    ensures Conserved(Next(s, step), key)
  {
    var batch := Batch(s.store, step.key);
    if batch != [] {
      var disk := step.TakeForDisk?;
      var flag := s.store[step.key].flag;
      var f := Flight(step.key, batch, if disk then NO_FLAGS else flag, !disk);
      var c := Popped(if disk then s.store else Flagged(s.store, step.key, Raised(flag)), step.key);
      DepartureConserves(s, f, c, key);
    }
  }

  /** Moving samples from the flights to the handed-out ones, or back to the store, keeps the sum. */
  lemma Regrouped<T>(resident: multiset<T>, flying: multiset<T>, rest: multiset<T>, moved: multiset<T>,
                     handed: multiset<T>)
    requires flying == rest + moved
    ensures resident + flying + handed == resident + rest + (handed + moved)
    ensures resident + flying + handed == (resident + moved) + rest + handed
  {
  }

  lemma FinishConserves<K>(s: State<K>, n: nat, key: K)
    requires n < |s.flights| && Conserved(s, key)
    ensures Conserved(Next(s, Finish(n)), key)
  {
    var f, rest := s.flights[n], Without(s.flights, n);
    var moved := if f.key == key then multiset(f.items) else multiset{};
    CarriedWithout(s.flights, n, key);
    CarriedNext(s.handed, f, key);
    Regrouped(ResidentOf(s.store, key), CarriedBy(s.flights, key), CarriedBy(rest, key), moved,
        CarriedBy(s.handed, key));
    var c := Landed(s.store, f);
    assert ResidentOf(c, key) == ResidentOf(s.store, key);
    assert Next(s, Finish(n)) == State(c, rest, s.handed + [f], s.accepted);
  }

  lemma RestoredResident<K>(c: Flat<K>, f: Flight<K>, key: K)
    requires f.key in c
    ensures ResidentOf(Landed(Restored(c, f.key, f.items), f), key) ==
            ResidentOf(c, key) + if f.key == key then multiset(f.items) else multiset{}
  {
    ReversedMultiset(f.items);
    assert multiset(c[f.key].items + Reversed(f.items)) == multiset(c[f.key].items) + multiset(f.items);
  }

  lemma FailConserves<K>(s: State<K>, n: nat, key: K)
    requires n < |s.flights| && s.flights[n].sending && Homed(s) && Conserved(s, key)
    ensures Conserved(Next(s, Fail(n)), key)
  {
    var f, rest := s.flights[n], Without(s.flights, n);
    var moved := if f.key == key then multiset(f.items) else multiset{};
    CarriedWithout(s.flights, n, key);
    RestoredResident(s.store, f, key);
    Regrouped(ResidentOf(s.store, key), CarriedBy(s.flights, key), CarriedBy(rest, key), moved,
        CarriedBy(s.handed, key));
    var c := Landed(Restored(s.store, f.key, f.items), f);
    assert Next(s, Fail(n)) == State(c, rest, s.handed, s.accepted);
  }

  lemma NextHomed<K>(s: State<K>, step: Step<K>)
    requires Homed(s)
    ensures Homed(Next(s, step))
  {
  }

  lemma {:induction false} RunsAreHomed<K>(steps: seq<Step<K>>)
    ensures Homed(Run(steps))
  {
    if steps != [] {
      RunsAreHomed(steps[..|steps| - 1]);
      NextHomed(Run(steps[..|steps| - 1]), steps[|steps| - 1]);
    }
  }

  /** In every interleaving, what was accepted for a key is in the store, in flight, or handed out: no sample is
      lost and none is doubled. */
  lemma {:induction false} SamplesConserved<K>(steps: seq<Step<K>>, key: K)
    ensures Conserved(Run(steps), key)
  {
    if steps != [] {
      var s, step := Run(steps[..|steps| - 1]), steps[|steps| - 1];
      SamplesConserved(steps[..|steps| - 1], key);
      RunsAreHomed(steps[..|steps| - 1]);
      match step {
        case Receive(a) => ReceiveConserves(s, a, key);
        case TakeForDisk(_) => TakeConserves(s, step, key);
        case TakeForSend(_) => TakeConserves(s, step, key);
        case Finish(n) =>
          if n < |s.flights| {
            FinishConserves(s, n, key);
          }
        case Fail(n) =>
          if n < |s.flights| && s.flights[n].sending {
            FailConserves(s, n, key);
          }
      }
    }
  }

  // ----- which samples are accepted -----

  /** The step takes no sample of the key away and puts none back. */
  predicate Undisturbed<K(==)>(s: State<K>, step: Step<K>, key: K) {
    match step
    case Receive(_) => true
    case TakeForDisk(k) => k != key
    case TakeForSend(k) => k != key
    case Finish(_) => true
    case Fail(n) => n < |s.flights| ==> s.flights[n].key != key
  }

  function RunFrom<K>(s: State<K>, q: seq<Step<K>>): State<K> {
    if q == [] then s else Next(RunFrom(s, q[..|q| - 1]), q[|q| - 1])
  }

  /** From state `s` on, none of the steps does. */
  ghost predicate Quiet<K>(s: State<K>, q: seq<Step<K>>, key: K) {
    q == [] || (Quiet(s, q[..|q| - 1], key) && Undisturbed(RunFrom(s, q[..|q| - 1]), q[|q| - 1], key))
  }

  /** A valid sample of the key arrives that is not before `t`. */
  ghost predicate Reaches<K>(step: Step<K>, key: K, t: int) {
    step.Receive? && step.arrival.valid && step.arrival.key == key && step.arrival.item.ts >= t
  }

  lemma NextAllBefore<K>(s: State<K>, step: Step<K>, key: K, t: int)
    requires Undisturbed(s, step, key) && Decreasing(ItemsOf(s.store, key))
    ensures Decreasing(ItemsOf(Next(s, step).store, key))
    ensures AllBefore(ItemsOf(Next(s, step).store, key), t) <==>
            AllBefore(ItemsOf(s.store, key), t) && !Reaches(step, key, t)
  {
    var items := ItemsOf(s.store, key);
    match step {
      case Receive(a) =>
        if a.key == key {
          ArrivalIff(s.store, a);
          FrontIsNewest(items, a.item, t);
        }
      case _ =>
        assert ItemsOf(Next(s, step).store, key) == items;
    }
  }

  lemma FrontIsNewest(items: seq<GraphItem>, item: GraphItem, t: int)
    requires Decreasing(items)
    ensures AllBefore(items, item.ts) ==>
              Decreasing([item] + items) && (AllBefore([item] + items, t) <==> AllBefore(items, t) && item.ts < t)
    ensures !AllBefore(items, item.ts) ==> (AllBefore(items, t) ==> item.ts < t)
  {
    var all := [item] + items;
    if AllBefore(all, t) {
      assert all[0].ts < t && forall i :: 0 <= i < |items| ==> all[i + 1] == items[i];
    }
  }

  /** Every valid sample of the key that arrives is before `t`. */
  ghost predicate ArrivalsBefore<K>(q: seq<Step<K>>, key: K, t: int) {
    forall m :: 0 <= m < |q| ==> !Reaches(q[m], key, t)
  }

  lemma ArrivalsBeforeNext<K>(init: seq<Step<K>>, step: Step<K>, key: K, t: int)
    ensures ArrivalsBefore(init + [step], key, t) <==> ArrivalsBefore(init, key, t) && !Reaches(step, key, t)
  {
    var q := init + [step];
    if ArrivalsBefore(q, key, t) {
      assert q[|init|] == step && forall m :: 0 <= m < |init| ==> init[m] == q[m];
    }
  }

  lemma {:induction false} QuietAllBefore<K>(s: State<K>, q: seq<Step<K>>, key: K, t: int)
    requires Quiet(s, q, key) && Decreasing(ItemsOf(s.store, key))
    ensures Decreasing(ItemsOf(RunFrom(s, q).store, key))
    ensures AllBefore(ItemsOf(RunFrom(s, q).store, key), t) <==>
            AllBefore(ItemsOf(s.store, key), t) && ArrivalsBefore(q, key, t)
  {
    if q != [] {
      var init, step := q[..|q| - 1], q[|q| - 1];
      QuietAllBefore(s, init, key, t);
      NextAllBefore(RunFrom(s, init), step, key, t);
      ArrivalsBeforeNext(init, step, key, t);
      assert q == init + [step];
    }
  }

  lemma {:induction false} RunOn<K>(p: seq<Step<K>>, q: seq<Step<K>>)
    ensures Run(p + q) == RunFrom(Run(p), q)
  {
    if q == [] {
      assert p + q == p;
    } else {
      RunOn(p, q[..|q| - 1]);
      RunNext(p + q[..|q| - 1], q[|q| - 1]);
      assert p + q == (p + q[..|q| - 1]) + [q[|q| - 1]];
    }
  }

  /** In every run: while no sample of its key is taken away or put back, a sample is accepted if and only if it is
      valid and newer than all samples that the key held before and all valid ones that arrived for it since; and then
      it is the newest. */
  lemma AcceptedIff<K>(p: seq<Step<K>>, q: seq<Step<K>>, a: Incoming<K>)
    requires Quiet(Run(p), q, a.key) && Decreasing(ItemsOf(Run(p).store, a.key))
    ensures var s, s' := Run(p + q), Run(p + q + [Receive(a)]);
            if a.valid && AllBefore(ItemsOf(Run(p).store, a.key), a.item.ts) && ArrivalsBefore(q, a.key, a.item.ts) then
              && s'.accepted == s.accepted + [(a.key, a.item)]
              && ItemsOf(s'.store, a.key) == [a.item] + ItemsOf(s.store, a.key)
            else s' == s
  {
    RunOn(p, q);
    QuietAllBefore(Run(p), q, a.key, a.item.ts);
    RunNext(p + q, Receive(a));
    ArrivalIff(Run(p + q).store, a);
  }

  // ----- the flag bits -----

  predicate BeingSent<K(==)>(fs: seq<Flight<K>>, key: K) {
    exists f :: f in fs && f.sending && f.key == key
  }

  lemma StillInFlight<K>(fs: seq<Flight<K>>, n: nat, f: Flight<K>)
    requires n < |fs| && f in fs && f != fs[n]
    ensures f in Without(fs, n)
  {
    var i :| 0 <= i < |fs| && fs[i] == f;
    assert Without(fs, n)[if i < n then i else i - 1] == f;
  }

  lemma StillBeingSent<K>(fs: seq<Flight<K>>, n: nat, key: K)
    requires n < |fs| && BeingSent(fs, key) && !(fs[n].sending && fs[n].key == key)
    ensures BeingSent(Without(fs, n), key)
  {
    var f :| f in fs && f.sending && f.key == key;
    StillInFlight(fs, n, f);
  }

  /** A raised bit means that samples of the key are being sent. */
  ghost predicate BitsMean<K(!new)>(s: State<K>) {
    forall k :: k in s.store && s.store[k].flag.sending ==> BeingSent(s.flights, k)
  }

  lemma NextBitsMean<K(!new)>(s: State<K>, step: Step<K>)
    requires BitsMean(s)
    ensures BitsMean(Next(s, step))
  {
    var s' := Next(s, step);
    forall k | k in s'.store && s'.store[k].flag.sending ensures BeingSent(s'.flights, k) {
      match step {
        case Finish(n) =>
          if n < |s.flights| {
            StillBeingSent(s.flights, n, k);
          }
        case Fail(n) =>
          if n < |s.flights| && s.flights[n].sending {
            StillBeingSent(s.flights, n, k);
          }
        case TakeForSend(key) =>
          if k == key {
            assert s'.flights[|s.flights|].sending && s'.flights[|s.flights|].key == k;
          } else {
            MoreBeingSent(s.flights, s'.flights, k);
          }
        case _ =>
          MoreBeingSent(s.flights, s'.flights, k);
      }
    }
  }

  lemma MoreBeingSent<K>(fs: seq<Flight<K>>, fs': seq<Flight<K>>, key: K)
    requires BeingSent(fs, key) && fs <= fs'
    ensures BeingSent(fs', key)
  {
    var f :| f in fs && f.sending && f.key == key;
    assert f in fs';
  }

  /** A send that has samples to send raises the bit. */
  lemma SendRaises<K>(s: State<K>, key: K)
    requires key in s.store && s.store[key].items != []
    ensures var s' := Next(s, TakeForSend(key));
            && key in s'.store && s'.store[key].flag == s.store[key].flag.(sending := true)
            && BeingSent(s'.flights, key)
  {
    var s' := Next(s, TakeForSend(key));
    assert s'.flights[|s.flights|].sending && s'.flights[|s.flights|].key == key;
  }

  /** In every run the bit is down for a key of which nothing is being sent. */
  lemma {:induction false} BitsAreTrue<K(!new)>(steps: seq<Step<K>>)
    ensures BitsMean(Run(steps))
  {
    if steps != [] {
      BitsAreTrue(steps[..|steps| - 1]);
      NextBitsMean(Run(steps[..|steps| - 1]), steps[|steps| - 1]);
    }
  }

  // ----- order of the lists and the batches -----

  ghost predicate BatchesInOrder<K>(s: State<K>) {
    && (forall i :: 0 <= i < |s.flights| ==> Increasing(s.flights[i].items))
    && (forall i :: 0 <= i < |s.handed| ==> Increasing(s.handed[i].items))
  }

  /** A failing send puts its samples behind newer ones, or there is nothing to put them behind, or nothing to put. */
  predicate RestoresBehind<K>(s: State<K>, n: nat) {
    n < |s.flights| && s.flights[n].sending ==>
      var f, l := s.flights[n], if s.flights[n].key in s.store then s.store[s.flights[n].key].items else [];
      l == [] || f.items == [] || f.items[|f.items| - 1].ts < l[|l| - 1].ts
  }

  /** One step keeps the lists in order exactly when it is not a failing send that puts samples before older ones. */
  lemma OrderStep<K(!new)>(s: State<K>, step: Step<K>)
    requires AllDecreasing(s.store) && BatchesInOrder(s) && Homed(s)
    ensures AllDecreasing(Next(s, step).store) <==> (step.Fail? ==> RestoresBehind(s, step.n))
    ensures BatchesInOrder(Next(s, step))
  {
    if step.Fail? && step.n < |s.flights| && s.flights[step.n].sending {
      FailOrder(s, step.n);
    }
  }

  lemma FailOrder<K(!new)>(s: State<K>, n: nat)
    requires AllDecreasing(s.store) && BatchesInOrder(s) && Homed(s) && n < |s.flights| && s.flights[n].sending
    ensures AllDecreasing(Next(s, Fail(n)).store) <==> RestoresBehind(s, n)
    ensures BatchesInOrder(Next(s, Fail(n)))
  {
    var f, c := s.flights[n], Next(s, Fail(n)).store;
    var l := s.store[f.key].items;
    RestoreOrderIff(l, f.items);
    assert c[f.key].items == l + Reversed(f.items);
    assert forall k :: k in c && k != f.key ==> c[k] == s.store[k];
  }

  /** After every step of the run all lists are in order. */
  ghost predicate AlwaysInOrder<K(!new)>(steps: seq<Step<K>>) {
    forall n :: 0 <= n <= |steps| ==> AllDecreasing(Run(steps[..n]).store)
  }

  /** Every failing send of the run puts its samples behind newer ones. */
  ghost predicate FailsInOrder<K>(steps: seq<Step<K>>) {
    forall n :: 0 <= n < |steps| && steps[n].Fail? ==> RestoresBehind(Run(steps[..n]), steps[n].n)
  }

  lemma AlwaysSplit<K(!new)>(steps: seq<Step<K>>)
    requires steps != []
    ensures AlwaysInOrder(steps) <==> AlwaysInOrder(steps[..|steps| - 1]) && AllDecreasing(Run(steps).store)
  {
    var init := steps[..|steps| - 1];
    assert steps[..|steps|] == steps;
    assert forall n :: 0 <= n <= |init| ==> init[..n] == steps[..n];
    if AlwaysInOrder(init) && AllDecreasing(Run(steps).store) {
      forall n | 0 <= n <= |steps| ensures AllDecreasing(Run(steps[..n]).store) {
        if n < |steps| {
          assert init[..n] == steps[..n];
        }
      }
    }
    if AlwaysInOrder(steps) {
      forall n | 0 <= n <= |init| ensures AllDecreasing(Run(init[..n]).store) {
        assert init[..n] == steps[..n];
      }
    }
  }

  lemma FailsSplit<K>(steps: seq<Step<K>>)
    requires steps != []
    ensures var last := steps[|steps| - 1];
            FailsInOrder(steps) <==> FailsInOrder(steps[..|steps| - 1])
                                     && (last.Fail? ==> RestoresBehind(Run(steps[..|steps| - 1]), last.n))
  {
    var init := steps[..|steps| - 1];
    assert forall n :: 0 <= n < |init| ==> init[..n] == steps[..n] && init[n] == steps[n];
  }

  /** The lists stay in order exactly when no failing send puts samples before older ones; then every batch, handed
      out or under way, is strictly increasing in time. */
  lemma {:induction false} OrderIff<K(!new)>(steps: seq<Step<K>>)
    ensures AlwaysInOrder(steps) <==> FailsInOrder(steps)
    ensures FailsInOrder(steps) ==> AllDecreasing(Run(steps).store) && BatchesInOrder(Run(steps))
  {
    if steps != [] {
      var init := steps[..|steps| - 1];
      OrderIff(init);
      RunsAreHomed(init);
      AlwaysSplit(steps);
      FailsSplit(steps);
      if FailsInOrder(init) {
        OrderStep(Run(init), steps[|steps| - 1]);
      }
    }
  }

  // ----- a rule that keeps the order -----

  /** Nothing arrives for a key that is older than what is being sent of it, and a key is sent once at a time. */
  ghost predicate Calm<K>(s: State<K>, step: Step<K>) {
    forall i :: 0 <= i < |s.flights| && s.flights[i].sending ==>
      && (step.Receive? && Taken(s.store, step.arrival) && step.arrival.key == s.flights[i].key ==>
            AboveBatch(s.flights[i], step.arrival.item))
      && (step.TakeForSend? ==> step.key != s.flights[i].key)
  }

  ghost predicate AboveBatch<K>(f: Flight<K>, item: GraphItem) {
    forall j :: 0 <= j < |f.items| ==> f.items[j].ts < item.ts
  }

  /** All that the store holds of the flight's key is newer than the flight. */
  ghost predicate BelowStore<K>(f: Flight<K>, c: Flat<K>) {
    f.sending && f.key in c ==> forall i :: 0 <= i < |c[f.key].items| ==> AboveBatch(f, c[f.key].items[i])
  }

  ghost predicate FlightsBelow<K>(fs: seq<Flight<K>>, c: Flat<K>) {
    && (forall i :: 0 <= i < |fs| ==> BelowStore(fs[i], c))
    && (forall i, j :: 0 <= i < j < |fs| && fs[i].sending && fs[j].sending ==> fs[i].key != fs[j].key)
  }

  ghost predicate CalmRun<K>(steps: seq<Step<K>>) {
    forall n :: 0 <= n < |steps| ==> Calm(Run(steps[..n]), steps[n])
  }

  lemma CalmStep<K(!new)>(s: State<K>, step: Step<K>)
    requires FlightsBelow(s.flights, s.store) && Homed(s) && Calm(s, step)
    ensures FlightsBelow(Next(s, step).flights, Next(s, step).store)
    ensures step.Fail? ==> RestoresBehind(s, step.n)
  {
    match step {
      case Receive(a) => CalmReceive(s, a);
      case TakeForDisk(_) => CalmTake(s, step);
      case TakeForSend(_) => CalmTake(s, step);
      case Finish(n) =>
        if n < |s.flights| {
          CalmLanding(s, step, n);
        }
      case Fail(n) =>
        if n < |s.flights| && s.flights[n].sending {
          CalmLanding(s, step, n);
          var f := s.flights[n];
          assert BelowStore(f, s.store);
          if s.store[f.key].items != [] {
            assert AboveBatch(f, s.store[f.key].items[|s.store[f.key].items| - 1]);
          }
        }
    }
  }

  lemma CalmReceive<K(!new)>(s: State<K>, a: Incoming<K>)
    requires FlightsBelow(s.flights, s.store) && Calm(s, Receive(a))
    ensures FlightsBelow(Next(s, Receive(a)).flights, Next(s, Receive(a)).store)
  {
    if Taken(s.store, a) {
      var c := Handled(s.store, a);
      forall i | 0 <= i < |s.flights| ensures BelowStore(s.flights[i], c) {
        assert BelowStore(s.flights[i], s.store);
      }
    }
  }

  lemma CalmTake<K(!new)>(s: State<K>, step: Step<K>)
    requires (step.TakeForDisk? || step.TakeForSend?) && FlightsBelow(s.flights, s.store) && Calm(s, step)
    ensures FlightsBelow(Next(s, step).flights, Next(s, step).store)
  {
    var s' := Next(s, step);
    forall i | 0 <= i < |s'.flights| ensures BelowStore(s'.flights[i], s'.store) {
      if i < |s.flights| {
        assert BelowStore(s.flights[i], s.store);
      }
    }
  }

  /** Ending a flight leaves the other flights below the store. */
  lemma CalmLanding<K(!new)>(s: State<K>, step: Step<K>, n: nat)
    requires FlightsBelow(s.flights, s.store) && Homed(s) && n < |s.flights|
    requires step == Finish(n) || (step == Fail(n) && s.flights[n].sending)
    ensures FlightsBelow(Next(s, step).flights, Next(s, step).store)
  {
    var s' := Next(s, step);
    forall i | 0 <= i < |s'.flights| ensures BelowStore(s'.flights[i], s'.store) {
      var j := if i < n then i else i + 1;
      assert s'.flights[i] == s.flights[j] && BelowStore(s.flights[j], s.store);
    }
  }

  lemma {:induction false} CalmRunsFailInOrder<K(!new)>(steps: seq<Step<K>>)
    requires CalmRun(steps)
    ensures FailsInOrder(steps) && FlightsBelow(Run(steps).flights, Run(steps).store)
  {
    if steps != [] {
      var init, last := steps[..|steps| - 1], |steps| - 1;
      forall n | 0 <= n < last ensures Calm(Run(init[..n]), init[n]) {
        assert init[..n] == steps[..n];
      }
      CalmRunsFailInOrder(init);
      RunsAreHomed(init);
      CalmStep(Run(init), steps[last]);
      FailsSplit(steps);
    }
  }

  /** In particular every calm run keeps its lists and batches in order. */
  lemma CalmRunsKeepOrder<K(!new)>(steps: seq<Step<K>>)
    requires CalmRun(steps)
    ensures AlwaysInOrder(steps) && BatchesInOrder(Run(steps))
  {
    CalmRunsFailInOrder(steps);
    OrderIff(steps);
  }

  lemma RunNext<K>(steps: seq<Step<K>>, step: Step<K>)
    ensures Run(steps + [step]) == Next(Run(steps), step)
  {
    assert (steps + [step])[..|steps|] == steps;
  }

  function LateSteps<K>(key: K, early: GraphItem, late: GraphItem): seq<Step<K>> {
    [Receive(Incoming(key, early, true, false)), TakeForSend(key), Receive(Incoming(key, late, true, false))]
  }

  /** One sample away, another one in its place. */
  lemma LateState<K(!new)>(key: K, early: GraphItem, late: GraphItem)
    ensures var s := Run(LateSteps(key, early, late));
            && s.store.Keys == {key} && s.store[key].items == [late]
            && s.flights == [Flight(key, [early], NO_FLAGS, true)]
  {
    var first, second := Incoming(key, early, true, false), Incoming(key, late, true, false);
    RunNext([], Receive(first));
    assert [] + [Receive(first)] == [Receive(first)];
    assert Run([Receive(first)]).store == map[key := Entry([early], NO_FLAGS)];
    RunNext([Receive(first)], TakeForSend(key));
    assert Reversed([early]) == [early];
    RunNext([Receive(first)] + [TakeForSend(key)], Receive(second));
    assert [Receive(first)] + [TakeForSend(key)] + [Receive(second)] == LateSteps(key, early, late);
  }

  lemma LatePutBack<K>(s: State<K>, key: K, early: GraphItem, late: GraphItem)
    requires s.store.Keys == {key} && s.store[key].items == [late]
             && s.flights == [Flight(key, [early], NO_FLAGS, true)]
    ensures key in Next(s, Fail(0)).store && Next(s, Fail(0)).store[key].items == [late, early]
  {
    assert Reversed([early]) == [early];
  }

  /** Any older sample taken while a newer one is away spoils the order once that is put back. */
  lemma LateSampleSpoilsOrder<K(!new)>(key: K, early: GraphItem, late: GraphItem)
    requires late.ts <= early.ts
    ensures var steps := LateSteps(key, early, late) + [Fail(0)];
            !AllDecreasing(Run(steps).store) && !FailsInOrder(steps)
  {
    var before := LateSteps(key, early, late);
    var steps := before + [Fail(0)];
    LateState(key, early, late);
    LatePutBack(Run(before), key, early, late);
    RunNext(before, Fail(0));
    assert !Decreasing([late, early]) by {
      assert [late, early][0] == late && [late, early][1] == early;
    }
    OrderIff(steps);
  }
}
