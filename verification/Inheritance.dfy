/** The strategies of one host in hbs (modules/hbs/rpc/hbs.go): along each kept chain a younger template
    overrides an older one, and a strategy id is emitted once. */
module Inheritance {
  import opened Options
  import opened Seqs
  import opened TemplateChains
  import Strings
  import Tags

  datatype Strategy = Strategy(id: int, metric: string, tags: Tags.TagMap, tpl: Template)

  type ByTemplate = map<int, seq<Strategy>>

  /** `ret` lists by template the strategies with an id in `done`. */
  ghost predicate Collected(ret: ByTemplate, strategies: map<int, Option<Strategy>>, done: set<int>) {
    forall tid, s :: s in Under(ret, tid) <==> s.tpl.id == tid && HeldUnder(strategies, done, s)
  }

  ghost predicate HeldUnder(strategies: map<int, Option<Strategy>>, done: set<int>, s: Strategy) {
    exists id :: id in done && id in strategies && strategies[id] == Some(s)
  }

  lemma CollectedNext(ret: ByTemplate, strategies: map<int, Option<Strategy>>, done: set<int>, id: int)
    requires Collected(ret, strategies, done) && id in strategies
    ensures strategies[id].None? ==> Collected(ret, strategies, done + {id})
    ensures strategies[id].Some? ==>
              var s := strategies[id].value;
              Collected(ret[s.tpl.id := Under(ret, s.tpl.id) + [s]], strategies, done + {id})
  {
    forall x ensures HeldUnder(strategies, done + {id}, x) <==>
        HeldUnder(strategies, done, x) || strategies[id] == Some(x) {
      if strategies[id] == Some(x) {
        assert id in done + {id};
      }
    }
    if strategies[id].Some? {
      var s := strategies[id].value;
      var ret' := ret[s.tpl.id := Under(ret, s.tpl.id) + [s]];
      forall tid, x ensures x in Under(ret', tid) <==> x in Under(ret, tid) || (tid == s.tpl.id && x == s) {
      }
    }
  }

  /** The active strategies by template; one without a template (None) is skipped. */
  method Tpl2Strategies(strategies: map<int, Option<Strategy>>) returns (ret: ByTemplate)
    ensures Collected(ret, strategies, strategies.Keys)
  {
    ret := map[];
    var ids := KeysOf(strategies);
    ghost var done: set<int> := {};
    for i := 0 to |ids|
      invariant done == set id | id in ids[..i]
      invariant Collected(ret, strategies, done)
    {
      var id := ids[i];
      CollectedNext(ret, strategies, done, id);
      if strategies[id].Some? {
        ret := AppendUnder(ret, strategies[id].value.tpl.id, strategies[id].value);
      }
      assert ids[..i + 1] == ids[..i] + [id];
      done := done + {id};
    }
    assert ids[..|ids|] == ids;
    assert done == strategies.Keys;
  }

  // ----- along one chain, for any way of telling strategies apart -----

  /** What is left of a key after the whole chain, oldest template first. */
  function Surviving<S, K(==)>(t2s: map<int, seq<S>>, bucket: seq<int>, key: S -> K, k: K): seq<S> {
    if bucket == [] then []
    else
      var own := Own(Under(t2s, bucket[|bucket| - 1]), key, k);
      if |own| > 0 then own else Surviving(t2s, bucket[..|bucket| - 1], key, k)
  }

  /** Template `n` of the chain is the youngest that defines the key. */
  ghost predicate YoungestDefining<S, K>(t2s: map<int, seq<S>>, bucket: seq<int>, key: S -> K, k: K, n: int) {
    && 0 <= n < |bucket|
    && Own(Under(t2s, bucket[n]), key, k) != []
    && forall j :: n < j < |bucket| ==> Own(Under(t2s, bucket[j]), key, k) == []
  }

  /** The child overrides the parent: a key keeps all and only what the youngest template defining it has. */
  lemma {:induction false} ChildOverridesParent<S, K>(t2s: map<int, seq<S>>, bucket: seq<int>, key: S -> K, k: K,
                                                      n: int)
    requires YoungestDefining(t2s, bucket, key, k, n)
    ensures Surviving(t2s, bucket, key, k) == Own(Under(t2s, bucket[n]), key, k)
  {
    if n < |bucket| - 1 {
      ChildOverridesParent(t2s, bucket[..|bucket| - 1], key, k, n);
    }
  }

  lemma {:induction false} YoungestExists<S, K>(t2s: map<int, seq<S>>, bucket: seq<int>, key: S -> K, k: K)
    returns (n: int)
    requires Surviving(t2s, bucket, key, k) != []
    ensures YoungestDefining(t2s, bucket, key, k, n)
  {
    n := |bucket| - 1;
    if Own(Under(t2s, bucket[n]), key, k) == [] {
      n := YoungestExists(t2s, bucket[..n], key, k);
    }
  }

  /** The strategies a chain leaves. */
  ghost predicate Survivor<S, K>(t2s: map<int, seq<S>>, bucket: seq<int>, key: S -> K, s: S) {
    s in Surviving(t2s, bucket, key, key(s))
  }

  /** An element survives exactly when a template of the chain has it and no younger one defines its key. */
  lemma SurvivorIff<S(!new), K>(t2s: map<int, seq<S>>, bucket: seq<int>, key: S -> K, s: S)
    ensures Survivor(t2s, bucket, key, s) <==>
            exists n :: 0 <= n < |bucket| && s in Under(t2s, bucket[n])
              && forall j, x :: n < j < |bucket| && x in Under(t2s, bucket[j]) ==> key(x) != key(s)
  {
    var k := key(s);
    if Survivor(t2s, bucket, key, s) {
      var n := YoungestExists(t2s, bucket, key, k);
      ChildOverridesParent(t2s, bucket, key, k, n);
      OwnIff(Under(t2s, bucket[n]), key, k, s);
      forall j, x | n < j < |bucket| && x in Under(t2s, bucket[j]) ensures key(x) != k {
        OwnIff(Under(t2s, bucket[j]), key, k, x);
      }
    }
    if n :| 0 <= n < |bucket| && s in Under(t2s, bucket[n])
            && forall j, x :: n < j < |bucket| && x in Under(t2s, bucket[j]) ==> key(x) != k
    {
      OwnIff(Under(t2s, bucket[n]), key, k, s);
      forall j | n < j < |bucket| ensures Own(Under(t2s, bucket[j]), key, k) == [] {
        OwnEmpty(Under(t2s, bucket[j]), key, k);
      }
      ChildOverridesParent(t2s, bucket, key, k, n);
    }
  }

  lemma {:induction false} OwnEmpty<S, K>(ss: seq<S>, key: S -> K, k: K)
    requires forall x :: x in ss ==> key(x) != k
    ensures Own(ss, key, k) == []
  {
    if ss != [] {
      assert ss[|ss| - 1] in ss;
      OwnEmpty(ss[..|ss| - 1], key, k);
    }
  }

  // ----- strategies told apart by metric and tags -----

  /** What identifies a strategy for overriding: its metric and its canonical tags. */
  ghost function Uuid(s: Strategy): string {
    "metric:" + s.metric + "/tags:" + Tags.Canonical(s.tags)
  }

  ghost const BY_UUID: Strategy -> string := (s: Strategy) => Uuid(s)

  /** The same metric and the same tags: what a uuid is meant to tell apart. */
  ghost predicate Same(s: Strategy, t: Strategy) {
    s.metric == t.metric && s.tags == t.tags
  }

  /** Another metric or other tags under the same uuid. */
  ghost predicate Confused(s: Strategy, t: Strategy) {
    Uuid(s) == Uuid(t) && !Same(s, t)
  }

  /** A metric without a slash, and tags as the tag parsers return them. */
  ghost predicate Plainly(s: Strategy) {
    Strings.Plain(s.metric, '/') && Tags.Clean(s.tags)
  }

  lemma SamePrefix<T>(p: seq<T>, a: seq<T>, b: seq<T>)
    requires p + a == p + b
    ensures a == b
  {
    assert (p + a)[|p|..] == a && (p + b)[|p|..] == b;
  }

  lemma UuidParts(s: Strategy)
    ensures Uuid(s) == "metric:" + ((s.metric + ['/']) + ("tags:" + Tags.Canonical(s.tags)))
  {
  }

  /** For such strategies a uuid tells metric and tags. */
  lemma UuidIff(s: Strategy, t: Strategy)
    requires Plainly(s) && Plainly(t)
    ensures Uuid(s) == Uuid(t) <==> Same(s, t)
  {
    if Uuid(s) == Uuid(t) {
      var a, b := "tags:" + Tags.Canonical(s.tags), "tags:" + Tags.Canonical(t.tags);
      UuidParts(s);
      UuidParts(t);
      SamePrefix("metric:", (s.metric + ['/']) + a, (t.metric + ['/']) + b);
      Strings.UniqueCut(s.metric, a, t.metric, b, '/');
      SamePrefix("tags:", Tags.Canonical(s.tags), Tags.Canonical(t.tags));
      Tags.CanonicalInjective(s.tags, t.tags);
    }
  }

  lemma OneTag(k: string, v: string)
    ensures Tags.Canonical(map[k := v]) == k + "=" + v
  {
    Tags.CanonicalOf(map[k := v], [k]);
    assert Tags.PairsOf(map[k := v], [k]) == [Tags.PairOf(k, v)];
  }

  /** A metric with a slash can take over a tag: two strategies of different metrics and clean tags share a uuid. */
  lemma UuidsCollide(id: int, tpl: Template, metric: string, k: string, v: string, k': string, v': string)
    requires var tags := map[k := v + ("/tags:" + (k' + ("=" + v')))]; Tags.Clean(tags) && Tags.Clean(map[k' := v'])
    ensures var s := Strategy(id, metric, map[k := v + ("/tags:" + (k' + ("=" + v')))], tpl);
            var t := Strategy(id + 1, metric + ("/tags:" + (k + ("=" + v))), map[k' := v'], tpl);
            Confused(s, t)
  {
    var tail := "/tags:" + (k' + ("=" + v'));
    OneTag(k, v + tail);
    OneTag(k', v');
    var middle := "/tags:" + (k + ("=" + v));
    assert Uuid(Strategy(id, metric, map[k := v + tail], tpl)) == "metric:" + (metric + (middle + tail)) by {
      assert k + "=" + (v + tail) == k + ("=" + v) + tail;
    }
    assert Uuid(Strategy(id + 1, metric + middle, map[k' := v'], tpl)) == "metric:" + (metric + (middle + tail));
    assert |middle| > 0;
    assert metric + middle != metric;
  }

  lemma CleanTag(k: string, v: string)
    requires forall i :: 0 <= i < |k| ==> k[i] != ',' && k[i] != '=' && k[i] != ' '
    requires forall i :: 0 <= i < |v| ==> v[i] != ',' && v[i] != ' '
    ensures Tags.Clean(map[k := v])
  {
  }

  /** Two strategies with clean tags, of the metrics `a` and `a/tags:x=1`, that share a uuid. */
  lemma MetricsCollide(id: int, tpl: Template)
    ensures Confused(Strategy(id, "a", map["x" := "1/tags:y=2"], tpl),
                     Strategy(id + 1, "a/tags:x=1", map["y" := "2"], tpl))
  {
    CleanTag("x", "1/tags:y=2");
    CleanTag("y", "2");
    assert "1" + ("/tags:" + ("y" + ("=" + "2"))) == "1/tags:y=2";
    assert "a" + ("/tags:" + ("x" + ("=" + "1"))) == "a/tags:x=1";
    UuidsCollide(id, tpl, "a", "x", "1", "y", "2");
  }

  /** A strategy survives exactly when a template of the chain has it, and no younger one has a strategy of the same
      metric and tags, nor one that is confused with it. */
  lemma StrategySurvivesIff(t2s: ByTemplate, bucket: seq<int>, s: Strategy)
    ensures Survivor(t2s, bucket, BY_UUID, s) <==>
            exists n :: 0 <= n < |bucket| && s in Under(t2s, bucket[n])
              && forall j, x :: n < j < |bucket| && x in Under(t2s, bucket[j]) ==> !Same(x, s) && !Confused(x, s)
  {
    SurvivorIff(t2s, bucket, BY_UUID, s);
    forall x ensures BY_UUID(x) == BY_UUID(s) <==> Same(x, s) || Confused(x, s) {
    }
  }

  /** All strategies of the chain are plain. */
  ghost predicate PlainChain(t2s: ByTemplate, bucket: seq<int>) {
    forall n, x :: 0 <= n < |bucket| && x in Under(t2s, bucket[n]) ==> Plainly(x)
  }

  /** Among plain strategies metric and tags decide alone: the youngest template that has them wins. */
  lemma PlainSurvivesIff(t2s: ByTemplate, bucket: seq<int>, s: Strategy)
    requires PlainChain(t2s, bucket)
    ensures Survivor(t2s, bucket, BY_UUID, s) <==>
            exists n :: 0 <= n < |bucket| && s in Under(t2s, bucket[n])
              && forall j, x :: n < j < |bucket| && x in Under(t2s, bucket[j]) ==> !Same(x, s)
  {
    StrategySurvivesIff(t2s, bucket, s);
    forall n, j, x | 0 <= n < |bucket| && s in Under(t2s, bucket[n]) && n < j < |bucket| && x in Under(t2s, bucket[j])
      ensures !Confused(x, s)
    {
      UuidIff(x, s);
    }
  }

  method UuidOf(s: Strategy) returns (uuid: string)
    ensures uuid == BY_UUID(s)
  {
    var tags := Tags.SortedTags(s.tags);
    uuid := "metric:" + s.metric + "/tags:" + tags;
  }

  /** A map from keys to non-empty groups. */
  ghost predicate Groups<S, K(!new)>(m: map<K, seq<S>>, ss: seq<S>, key: S -> K) {
    && (forall k :: Under(m, k) == Own(ss, key, k))
    && (forall k :: k in m ==> m[k] != [])
  }

  lemma GroupsNext<S, K(!new)>(m: map<K, seq<S>>, ss: seq<S>, key: S -> K, s: S)
    requires Groups(m, ss, key)
    ensures Groups(m[key(s) := Under(m, key(s)) + [s]], ss + [s], key)
  {
    assert (ss + [s])[..|ss|] == ss;
    var m' := m[key(s) := Under(m, key(s)) + [s]];
    forall k ensures Under(m', k) == Own(ss + [s], key, k) {
      assert Under(m, k) == Own(ss, key, k);
    }
  }

  method GroupByUuid(stras: seq<Strategy>) returns (m: map<string, seq<Strategy>>)
    ensures Groups(m, stras, BY_UUID)
  {
    m := map[];
    for i := 0 to |stras|
      invariant Groups(m, stras[..i], BY_UUID)
    {
      GroupsNext(m, stras[..i], BY_UUID, stras[i]);
      assert stras[..i] + [stras[i]] == stras[..i + 1];
      var uuid := UuidOf(stras[i]);
      m := AppendUnder(m, uuid, stras[i]);
    }
    assert stras[..|stras|] == stras;
  }

  /** What the chain so far leaves of every key. */
  ghost predicate Overlays<S, K(!new)>(m: map<K, seq<S>>, t2s: map<int, seq<S>>, bucket: seq<int>, key: S -> K) {
    forall k :: Under(m, k) == Surviving(t2s, bucket, key, k)
  }

  lemma OverlaysNext<S, K(!new)>(m: map<K, seq<S>>, own: map<K, seq<S>>, t2s: map<int, seq<S>>, bucket: seq<int>,
                                 tid: int, key: S -> K)
    requires Overlays(m, t2s, bucket, key) && Groups(own, Under(t2s, tid), key)
    ensures Overlays(m + own, t2s, bucket + [tid], key)
  {
    assert (bucket + [tid])[..|bucket|] == bucket;
  }

  method Overlay(t2s: ByTemplate, bucket: seq<int>) returns (m: map<string, seq<Strategy>>)
    ensures Overlays(m, t2s, bucket, BY_UUID)
  {
    m := map[];
    for i := 0 to |bucket|
      invariant Overlays(m, t2s, bucket[..i], BY_UUID)
    {
      var own := GroupByUuid(Under(t2s, bucket[i]));
      OverlaysNext(m, own, t2s, bucket[..i], bucket[i], BY_UUID);
      assert bucket[..i] + [bucket[i]] == bucket[..i + 1];
      m := CopyOver(m, own);
    }
    assert bucket[..|bucket|] == bucket;
  }

  // ----- over all chains -----

  /** The strategy as sent has the same id, metric and tags, and the youngest template of its chain. */
  ghost predicate SentFor(tpls: Templates, tid: int, s: Strategy, o: Strategy)
    requires tid in tpls
  {
    && o.id == s.id && Same(o, s)
    && o.tpl == if s.tpl.id == tid then s.tpl else tpls[tid]
  }

  ghost predicate DistinctIds(ss: seq<Strategy>) {
    forall i, j :: 0 <= i < j < |ss| ==> ss[i].id != ss[j].id
  }

  function IdsOf(ss: seq<Strategy>): set<int> {
    set s | s in ss :: s.id
  }

  /** `out` extends `before` by members of `pool` as they are sent, each with a new id. */
  ghost predicate Extends(tpls: Templates, tid: int, pool: iset<Strategy>, before: seq<Strategy>, out: seq<Strategy>)
    requires tid in tpls
  {
    && before <= out && DistinctIds(out)
    && forall n :: |before| <= n < |out| ==>
         out[n].id !in IdsOf(before) && exists s :: s in pool && SentFor(tpls, tid, s, out[n])
  }

  lemma ExtendsNext(tpls: Templates, tid: int, pool: iset<Strategy>, before: seq<Strategy>, out: seq<Strategy>,
                    s: Strategy, o: Strategy)
    requires tid in tpls && Extends(tpls, tid, pool, before, out) && s in pool && s.id !in IdsOf(out)
    requires SentFor(tpls, tid, s, o)
    ensures Extends(tpls, tid, pool, before, out + [o])
    ensures IdsOf(out + [o]) == IdsOf(out) + {s.id}
  {
    assert forall x :: x in out + [o] <==> x in out || x == o;
    forall i | 0 <= i < |out| ensures out[i].id != o.id {
      assert out[i] in out;
    }
    forall x | x in before ensures x in out {
    }
  }

  method EmitList(tpls: Templates, ss: seq<Strategy>, tid: int, ghost pool: iset<Strategy>, ghost before: seq<Strategy>,
                  sofar: seq<Strategy>, seen: set<int>)
    returns (out: seq<Strategy>, seen': set<int>)
    requires tid in tpls && Extends(tpls, tid, pool, before, sofar) && seen == IdsOf(sofar)
    requires forall s :: s in ss ==> s in pool
    ensures Extends(tpls, tid, pool, before, out) && seen' == IdsOf(out)
    ensures seen <= seen' && forall s :: s in ss ==> s.id in seen'
  {
    out, seen' := sofar, seen;
    for i := 0 to |ss|
      invariant Extends(tpls, tid, pool, before, out) && seen' == IdsOf(out)
      invariant seen <= seen' && forall k :: 0 <= k < i ==> ss[k].id in seen'
    {
      var s := ss[i];
      if s.id !in seen' {
        var o := s;
        if o.tpl.id != tid {
          o := o.(tpl := tpls[tid]);
        }
        ExtendsNext(tpls, tid, pool, before, out, s, o);
        out := out + [o];
        seen' := seen' + {s.id};
      }
    }
  }

  /** All survivors of one chain, in whatever order the map gives. */
  ghost function Pool(t2s: ByTemplate, bucket: seq<int>): iset<Strategy> {
    iset s | Survivor(t2s, bucket, BY_UUID, s)
  }

  lemma GroupInPool(t2s: ByTemplate, bucket: seq<int>, m: map<string, seq<Strategy>>, uuid: string, s: Strategy)
    requires Overlays(m, t2s, bucket, BY_UUID)
    ensures uuid in m && s in m[uuid] ==> s in Pool(t2s, bucket) && BY_UUID(s) == uuid
    ensures s in Pool(t2s, bucket) ==> BY_UUID(s) in m && s in m[BY_UUID(s)]
  {
    assert Under(m, uuid) == Surviving(t2s, bucket, BY_UUID, uuid);
    assert Under(m, BY_UUID(s)) == Surviving(t2s, bucket, BY_UUID, BY_UUID(s));
    if uuid in m && s in m[uuid] {
      var n := YoungestExists(t2s, bucket, BY_UUID, uuid);
      ChildOverridesParent(t2s, bucket, BY_UUID, uuid, n);
      OwnIff(Under(t2s, bucket[n]), BY_UUID, uuid, s);
    }
  }

  method EmitBucket(tpls: Templates, t2s: ByTemplate, bucket: seq<int>, before: seq<Strategy>, seen: set<int>)
    returns (out: seq<Strategy>, seen': set<int>)
    requires bucket != [] && bucket[|bucket| - 1] in tpls && DistinctIds(before) && seen == IdsOf(before)
    ensures Extends(tpls, bucket[|bucket| - 1], Pool(t2s, bucket), before, out) && seen' == IdsOf(out)
    ensures seen <= seen' && forall s :: s in Pool(t2s, bucket) ==> s.id in seen'
  {
    ghost var pool := Pool(t2s, bucket);
    var lastTid := bucket[|bucket| - 1];
    var m := Overlay(t2s, bucket);
    out, seen' := before, seen;
    var rest := m.Keys;
    while rest != {}
      invariant rest <= m.Keys
      invariant Extends(tpls, lastTid, pool, before, out) && seen' == IdsOf(out) && seen <= seen'
      invariant forall uuid, s :: uuid in m && uuid !in rest && s in m[uuid] ==> s.id in seen'
      decreases |rest|
    {
      var uuid :| uuid in rest;
      rest := rest - {uuid};
      forall s | s in m[uuid] ensures s in pool {
        GroupInPool(t2s, bucket, m, uuid, s);
      }
      out, seen' := EmitList(tpls, m[uuid], lastTid, pool, before, out, seen');
    }
    forall s | s in pool ensures s.id in seen' {
      GroupInPool(t2s, bucket, m, BY_UUID(s), s);
    }
  }

  /** A kept chain as far as the output is concerned: what survives in it, and its youngest template. */
  datatype Source = Source(pool: iset<Strategy>, tid: int)

  ghost predicate Usable(tpls: Templates, sources: seq<Source>) {
    forall b :: 0 <= b < |sources| ==> sources[b].tid in tpls
  }

  /** `o` comes from source `b`. */
  ghost predicate ComesFrom(tpls: Templates, source: Source, o: Strategy)
    requires source.tid in tpls
  {
    exists s :: s in source.pool && SentFor(tpls, source.tid, s, o)
  }

  /** Some survivor of the source has the id. */
  ghost predicate Offers(source: Source, id: int) {
    exists s :: s in source.pool && s.id == id
  }

  /** Source `b` is the first to offer the id of `o`, and `o` comes from it. */
  ghost predicate EmittedBy(tpls: Templates, sources: seq<Source>, b: int, o: Strategy)
    requires Usable(tpls, sources)
  {
    0 <= b < |sources| && ComesFrom(tpls, sources[b], o) && forall c :: 0 <= c < b ==> !Offers(sources[c], o.id)
  }

  ghost predicate HasEmitter(tpls: Templates, sources: seq<Source>, o: Strategy)
    requires Usable(tpls, sources)
  {
    exists b :: EmittedBy(tpls, sources, b, o)
  }

  /** Each id is emitted once, by the first source that offers it, and none is missed. */
  ghost predicate Emitted(tpls: Templates, sources: seq<Source>, out: seq<Strategy>)
    requires Usable(tpls, sources)
  {
    && DistinctIds(out)
    && (forall i :: 0 <= i < |out| ==> HasEmitter(tpls, sources, out[i]))
    && (forall b, id :: 0 <= b < |sources| && Offers(sources[b], id) ==> id in IdsOf(out))
  }

  lemma EmittedByMore(tpls: Templates, sources: seq<Source>, more: seq<Source>, b: int, o: Strategy)
    requires Usable(tpls, sources) && Usable(tpls, more) && sources <= more && EmittedBy(tpls, sources, b, o)
    ensures EmittedBy(tpls, more, b, o)
  {
  }

  /** Adding a source emits exactly its new ids. */
  lemma EmittedNext(tpls: Templates, sources: seq<Source>, source: Source, before: seq<Strategy>, out: seq<Strategy>)
    requires Usable(tpls, sources) && source.tid in tpls && Emitted(tpls, sources, before)
    requires Extends(tpls, source.tid, source.pool, before, out)
    requires forall id :: Offers(source, id) ==> id in IdsOf(out)
    ensures Usable(tpls, sources + [source]) && Emitted(tpls, sources + [source], out)
  {
    var more := sources + [source];
    assert Usable(tpls, more);
    forall i | 0 <= i < |out| ensures HasEmitter(tpls, more, out[i]) {
      if i < |before| {
        assert HasEmitter(tpls, sources, before[i]);
        var b :| EmittedBy(tpls, sources, b, before[i]);
        EmittedByMore(tpls, sources, more, b, before[i]);
      } else {
        assert more[|sources|] == source;
        assert ComesFrom(tpls, source, out[i]);
        assert EmittedBy(tpls, more, |sources|, out[i]);
      }
    }
    assert forall x :: x in before ==> x in out;
    forall b, id | 0 <= b < |more| && Offers(more[b], id) ensures id in IdsOf(out) {
      if b < |sources| {
        assert id in IdsOf(before);
      }
    }
  }

  ghost function SourceOf(t2s: ByTemplate, bucket: seq<int>): Source
    requires bucket != []
  {
    Source(Pool(t2s, bucket), bucket[|bucket| - 1])
  }

  /** The kept chains of a host. */
  ghost function Sources(tpls: Templates, tids: seq<int>, t2s: ByTemplate): (sources: seq<Source>)
    ensures Usable(tpls, sources)
  {
    var kept := KeptFrom(Buckets(tpls, tids), 0);
    KeptUsable(tpls, tids, kept);
    seq(|kept|, n requires 0 <= n < |kept| => SourceOf(t2s, kept[n]))
  }

  lemma KeptUsable(tpls: Templates, tids: seq<int>, kept: seq<seq<int>>)
    requires kept == KeptFrom(Buckets(tpls, tids), 0)
    ensures forall b :: 0 <= b < |kept| ==> kept[b] != [] && kept[b][|kept[b]| - 1] in tpls
  {
    var bs := Buckets(tpls, tids);
    BucketsArePaths(tpls, tids);
    forall b | 0 <= b < |kept| ensures kept[b] != [] && kept[b][|kept[b]| - 1] in tpls {
      KeptFromIff(bs, 0, kept[b]);
      var k :| 0 <= k < |bs| && bs[k] == kept[b];
    }
  }

  method EmitAll(tpls: Templates, t2s: ByTemplate, buckets: seq<seq<int>>, ghost sources: seq<Source>)
    returns (out: seq<Strategy>)
    requires |sources| == |buckets| && Usable(tpls, sources)
    requires forall b :: 0 <= b < |buckets| ==> buckets[b] != [] && sources[b] == SourceOf(t2s, buckets[b])
    ensures Emitted(tpls, sources, out)
  {
    out := [];
    var seen: set<int> := {};
    for n := 0 to |buckets|
      invariant Usable(tpls, sources[..n]) && Emitted(tpls, sources[..n], out) && seen == IdsOf(out)
    {
      ghost var before := out;
      out, seen := EmitBucket(tpls, t2s, buckets[n], out, seen);
      EmittedNext(tpls, sources[..n], sources[n], before, out);
      assert sources[..n] + [sources[n]] == sources[..n + 1];
    }
    assert sources[..|buckets|] == sources;
  }

  /** A kept chain keeps its place before the later ones. */
  lemma {:induction false} KeptPlace(bs: seq<seq<int>>, i: nat, b: nat) returns (k: nat)
    requires i <= |bs| && b < |KeptFrom(bs, i)|
    ensures i <= k < |bs| && Kept(bs, k) && bs[k] == KeptFrom(bs, i)[b]
    ensures forall j :: i <= j < k && Kept(bs, j) ==> bs[j] in KeptFrom(bs, i)[..b]
    decreases |bs| - i
  {
    var rest := KeptFrom(bs, i + 1);
    if !Kept(bs, i) {
      k := KeptPlace(bs, i + 1, b);
    } else if b == 0 {
      k := i;
    } else {
      k := KeptPlace(bs, i + 1, b - 1);
      assert KeptFrom(bs, i)[..b] == [bs[i]] + rest[..b - 1];
    }
  }

  /** `o` is sent for survivor `s` of chain `k`, the first kept one to leave a strategy of its id: with the id, metric
      and tags of `s`, and with the chain's youngest template unless it is the template of `s`. */
  ghost predicate Origin(tpls: Templates, t2s: ByTemplate, bs: seq<seq<int>>, k: nat, s: Strategy, o: Strategy) {
    && k < |bs| && Kept(bs, k) && Survivor(t2s, bs[k], BY_UUID, s)
    && (forall j, x :: 0 <= j < k && Kept(bs, j) && Survivor(t2s, bs[j], BY_UUID, x) ==> x.id != o.id)
    && bs[k] != [] && bs[k][|bs[k]| - 1] in tpls
    && o.id == s.id && o.metric == s.metric && o.tags == s.tags
    && o.tpl == if s.tpl.id == bs[k][|bs[k]| - 1] then s.tpl else tpls[bs[k][|bs[k]| - 1]]
  }

  ghost predicate HasOrigin(tpls: Templates, t2s: ByTemplate, bs: seq<seq<int>>, o: Strategy) {
    exists k: nat, s :: Origin(tpls, t2s, bs, k, s, o)
  }

  ghost predicate HasId(out: seq<Strategy>, id: int) {
    exists i :: 0 <= i < |out| && out[i].id == id
  }

  /** No earlier kept chain leaves the id. */
  lemma NoneOfferedBefore(t2s: ByTemplate, bs: seq<seq<int>>, b: nat, id: int, sources: seq<Source>) returns (k: nat)
    requires b < |KeptFrom(bs, 0)| == |sources|
    requires forall c :: 0 <= c < |sources| ==> sources[c].pool == Pool(t2s, KeptFrom(bs, 0)[c])
    requires forall c :: 0 <= c < b ==> !Offers(sources[c], id)
    ensures k < |bs| && Kept(bs, k) && bs[k] == KeptFrom(bs, 0)[b]
    ensures forall j, x :: 0 <= j < k && Kept(bs, j) && Survivor(t2s, bs[j], BY_UUID, x) ==> x.id != id
  {
    var kept := KeptFrom(bs, 0);
    k := KeptPlace(bs, 0, b);
    forall j, x | 0 <= j < k && Kept(bs, j) && Survivor(t2s, bs[j], BY_UUID, x) ensures x.id != id {
      var c :| 0 <= c < b && kept[..b][c] == bs[j];
      assert x in sources[c].pool;
      assert !Offers(sources[c], id);
    }
  }

  lemma SourcesAre(tpls: Templates, tids: seq<int>, t2s: ByTemplate)
    ensures var kept, sources := KeptFrom(Buckets(tpls, tids), 0), Sources(tpls, tids, t2s);
            && |sources| == |kept|
            && forall c :: 0 <= c < |kept| ==>
                 && kept[c] != [] && kept[c][|kept[c]| - 1] in tpls
                 && sources[c] == Source(Pool(t2s, kept[c]), kept[c][|kept[c]| - 1])
  {
    KeptUsable(tpls, tids, KeptFrom(Buckets(tpls, tids), 0));
  }

  lemma EmittedHasOrigin(tpls: Templates, t2s: ByTemplate, bs: seq<seq<int>>, sources: seq<Source>, o: Strategy)
    requires |sources| == |KeptFrom(bs, 0)| && Usable(tpls, sources) && HasEmitter(tpls, sources, o)
    requires forall c :: 0 <= c < |sources| ==>
               var chain := KeptFrom(bs, 0)[c];
               chain != [] && sources[c] == Source(Pool(t2s, chain), chain[|chain| - 1])
    ensures HasOrigin(tpls, t2s, bs, o)
  {
    var b :| EmittedBy(tpls, sources, b, o);
    var s :| s in sources[b].pool && SentFor(tpls, sources[b].tid, s, o);
    var k := NoneOfferedBefore(t2s, bs, b, o.id, sources);
    assert Origin(tpls, t2s, bs, k, s, o);
  }

  lemma SurvivorIsEmitted(t2s: ByTemplate, bs: seq<seq<int>>, sources: seq<Source>, out: seq<Strategy>, k: nat,
                          s: Strategy)
    requires |sources| == |KeptFrom(bs, 0)| && k < |bs| && Kept(bs, k) && Survivor(t2s, bs[k], BY_UUID, s)
    requires forall c :: 0 <= c < |sources| ==> sources[c].pool == Pool(t2s, KeptFrom(bs, 0)[c])
    requires forall b, id :: 0 <= b < |sources| && Offers(sources[b], id) ==> id in IdsOf(out)
    ensures HasId(out, s.id)
  {
    KeptFromIff(bs, 0, bs[k]);
    var b :| 0 <= b < |sources| && KeptFrom(bs, 0)[b] == bs[k];
    assert s in sources[b].pool;
    assert Offers(sources[b], s.id);
    assert s.id in IdsOf(out);
    var o :| o in out && o.id == s.id;
    var i :| 0 <= i < |out| && out[i] == o;
  }

  /** Ids are unique, each strategy has its origin, and no id that a kept chain leaves is missed. */
  ghost predicate Inherited(tpls: Templates, t2s: ByTemplate, bs: seq<seq<int>>, out: seq<Strategy>) {
    && (forall i, j :: 0 <= i < j < |out| ==> out[i].id != out[j].id)
    && (forall i :: 0 <= i < |out| ==> HasOrigin(tpls, t2s, bs, out[i]))
    && (forall k, s :: 0 <= k < |bs| && Kept(bs, k) && Survivor(t2s, bs[k], BY_UUID, s) ==> HasId(out, s.id))
  }

  lemma EmittedIsInherited(tpls: Templates, tids: seq<int>, t2s: ByTemplate, out: seq<Strategy>)
    requires Emitted(tpls, Sources(tpls, tids, t2s), out)
    ensures Inherited(tpls, t2s, Buckets(tpls, tids), out)
  {
    var bs, sources := Buckets(tpls, tids), Sources(tpls, tids, t2s);
    SourcesAre(tpls, tids, t2s);
    forall i | 0 <= i < |out| ensures HasOrigin(tpls, t2s, bs, out[i]) {
      EmittedHasOrigin(tpls, t2s, bs, sources, out[i]);
    }
    forall k, s | 0 <= k < |bs| && Kept(bs, k) && Survivor(t2s, bs[k], BY_UUID, s) ensures HasId(out, s.id) {
      SurvivorIsEmitted(t2s, bs, sources, out, k, s);
    }
  }

  /** The strategies of one host: the survivors of its kept chains, each id once, attributed to the youngest
      template of the first chain that leaves it. */
  method CalcInheritStrategies(tpls: Templates, tids: seq<int>, t2s: ByTemplate) returns (out: seq<Strategy>)
    ensures Inherited(tpls, t2s, Buckets(tpls, tids), out)
  {
    var all := CollectBuckets(tpls, tids);
    var buckets := Prune(all);
    KeptUsable(tpls, tids, buckets);
    out := EmitAll(tpls, t2s, buckets, Sources(tpls, tids, t2s));
    EmittedIsInherited(tpls, tids, t2s, out);
  }
}
