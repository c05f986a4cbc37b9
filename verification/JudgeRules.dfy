/** Which rules the judge applies to a sample: the index of expressions by metric and tag
    (modules/judge/cron/strategy.go) and its use (modules/judge/store/judge.go) against a scan of all rules. */
module JudgeRules {
  import opened JudgeHistory
  import opened Seqs
  import opened Strings

  type Tags = map<string, string>

  datatype Expression = Expression(id: int, metric: string, tags: Tags)

  // ----- index keys -----

  function Key(metric: string, k: string, v: string): string {
    metric + "/" + k + "=" + v
  }

  /** A key determines the metric when metrics contain no slash. */
  lemma KeyMetric(metric: string, k: string, v: string, metric': string, k': string, v': string)
    requires Key(metric, k, v) == Key(metric', k', v') && '/' !in metric && '/' !in metric'
    ensures metric == metric'
  {
    assert Key(metric, k, v) == metric + "/" + (k + "=" + v);
    assert Key(metric', k', v') == metric' + "/" + (k' + "=" + v');
    UniqueCut(metric, k + "=" + v, metric', k' + "=" + v', '/');
  }

  /** All tags of a rule are among the given ones with the same values. */
  predicate Contained(tags: Tags, all: Tags) {
    forall k :: k in tags ==> k in all && all[k] == tags[k]
  }

  /** The item's tags with its endpoint; a tag named endpoint wins over the endpoint. */
  function Extended(item: JudgeItem): Tags {
    map["endpoint" := item.endpoint] + item.tags
  }

  ghost predicate KeyAmong(metric: string, tags: Tags, ks: set<string>, key: string) {
    exists k :: k in ks && k in tags && Key(metric, k, tags[k]) == key
  }

  lemma KeyAmongNext(metric: string, tags: Tags, ks: set<string>, k: string)
    requires k in tags
    ensures forall key :: KeyAmong(metric, tags, ks + {k}, key) <==>
              KeyAmong(metric, tags, ks, key) || key == Key(metric, k, tags[k])
  {
    forall key ensures KeyAmong(metric, tags, ks + {k}, key) <==>
                         KeyAmong(metric, tags, ks, key) || key == Key(metric, k, tags[k])
    {
      if key == Key(metric, k, tags[k]) {
        assert k in ks + {k};
      }
    }
  }

  ghost predicate RuleKey(e: Expression, key: string) {
    KeyAmong(e.metric, e.tags, e.tags.Keys, key)
  }

  ghost predicate ItemKey(item: JudgeItem, key: string) {
    || KeyAmong(item.metric, item.tags, item.tags.Keys, key)
    || key == Key(item.metric, "endpoint", item.endpoint)
  }

  predicate Indexed(m: map<string, seq<Expression>>, key: string, e: Expression) {
    e in Under(m, key)
  }

  method AddExpression(before: map<string, seq<Expression>>, exp: Expression) returns (m: map<string, seq<Expression>>)
    ensures forall key, e :: Indexed(m, key, e) <==> Indexed(before, key, e) || (e == exp && RuleKey(exp, key))
  {
    m := before;
    var rest := exp.tags.Keys;
    ghost var done: set<string> := {};
    while rest != {}
      invariant rest !! done && rest + done == exp.tags.Keys
      invariant forall key, e :: Indexed(m, key, e) <==>
                  Indexed(before, key, e) || (e == exp && KeyAmong(exp.metric, exp.tags, done, key))
      decreases |rest|
    {
      var k :| k in rest;
      var key := Key(exp.metric, k, exp.tags[k]);
      ghost var m0, done0 := m, done;
      KeyAmongNext(exp.metric, exp.tags, done, k);
      rest, done := rest - {k}, done + {k};
      m := AppendUnder(m, key, exp);
      forall x, e ensures Indexed(m, x, e) <==>
          Indexed(before, x, e) || (e == exp && KeyAmong(exp.metric, exp.tags, done, x)) {
        assert Indexed(m, x, e) <==> Indexed(m0, x, e) || (x == key && e == exp);
        assert KeyAmong(exp.metric, exp.tags, done, x) <==> KeyAmong(exp.metric, exp.tags, done0, x) || x == key;
      }
    }
    assert done == exp.tags.Keys;
  }

  method RebuildExpressionMap(expressions: seq<Expression>) returns (m: map<string, seq<Expression>>)
    ensures forall key, e :: Indexed(m, key, e) <==> e in expressions && RuleKey(e, key)
  {
    m := map[];
    for i := 0 to |expressions|
      invariant forall key, e :: Indexed(m, key, e) <==> e in expressions[..i] && RuleKey(e, key)
    {
      m := AddExpression(m, expressions[i]);
    }
    assert expressions[..|expressions|] == expressions;
  }

  method BuildKeys(item: JudgeItem) returns (keys: seq<string>)
    ensures forall key :: key in keys <==> ItemKey(item, key)
  {
    keys := [];
    var rest := item.tags.Keys;
    ghost var done: set<string> := {};
    while rest != {}
      invariant rest !! done && rest + done == item.tags.Keys
      invariant forall key :: key in keys <==> KeyAmong(item.metric, item.tags, done, key)
      decreases |rest|
    {
      var k :| k in rest;
      KeyAmongNext(item.metric, item.tags, done, k);
      rest, done := rest - {k}, done + {k};
      keys := keys + [Key(item.metric, k, item.tags[k])];
    }
    assert done == item.tags.Keys;
    keys := keys + [Key(item.metric, "endpoint", item.endpoint)];
  }

  method CopyItemTags(item: JudgeItem) returns (ret: Tags)
    ensures ret == Extended(item)
  {
    ret := CopyOver(map["endpoint" := item.endpoint], item.tags);
  }

  method TagsRelated(tags: Tags, all: Tags) returns (related: bool)
    ensures related == Contained(tags, all)
  {
    related := true;
    var rest := tags.Keys;
    while rest != {}
      invariant rest <= tags.Keys
      invariant related && forall k :: k in tags && k !in rest ==> k in all && all[k] == tags[k]
      decreases |rest|
    {
      var k :| k in rest;
      rest := rest - {k};
      if !(k in all) || all[k] != tags[k] {
        related := false;
        break;
      }
    }
  }

  method FilterRelated(expressions: seq<Expression>, item: JudgeItem) returns (exps: seq<Expression>)
    ensures forall e :: e in exps <==> e in expressions && Contained(e.tags, Extended(item))
  {
    exps := [];
    for i := 0 to |expressions|
      invariant forall e :: e in exps <==> e in expressions[..i] && Contained(e.tags, Extended(item))
    {
      var exp := expressions[i];
      var itemTags := item.tags;
      if "endpoint" in exp.tags {
        itemTags := CopyItemTags(item);
      }
      var related := TagsRelated(exp.tags, itemTags);
      if related {
        exps := exps + [exp];
      }
    }
    assert expressions[..|expressions|] == expressions;
  }

  /** The item meets the expression under one of its keys and carries all of its tags. */
  ghost predicate Met(m: map<string, seq<Expression>>, item: JudgeItem, e: Expression) {
    Contained(e.tags, Extended(item)) && exists key :: ItemKey(item, key) && Indexed(m, key, e)
  }

  ghost predicate DistinctIds(es: seq<Expression>) {
    forall i, j :: 0 <= i < j < |es| ==> es[i].id != es[j].id
  }

  function IdsOf(es: seq<Expression>): set<int> {
    set e | e in es :: e.id
  }

  /** Judges those of `related` whose id has not been handled yet. */
  method JudgeNew(related: seq<Expression>, before: seq<Expression>, handled: set<int>)
    returns (judged: seq<Expression>, handled': set<int>)
    requires DistinctIds(before) && handled == IdsOf(before)
    ensures DistinctIds(judged) && handled' == IdsOf(judged)
    ensures forall e :: e in judged ==> e in before || e in related
    ensures handled <= handled' && forall e :: e in related ==> e.id in handled'
  {
    judged, handled' := before, handled;
    for n := 0 to |related|
      invariant DistinctIds(judged) && handled' == IdsOf(judged)
      invariant forall e :: e in judged ==> e in before || e in related
      invariant handled <= handled' && forall k :: 0 <= k < n ==> related[k].id in handled'
    {
      var exp := related[n];
      if exp.id !in handled' {
        assert forall e :: e in judged + [exp] <==> e in judged || e == exp;
        handled' := handled' + {exp.id};
        judged := judged + [exp];
      }
    }
  }

  method CheckExpression(m: map<string, seq<Expression>>, item: JudgeItem) returns (judged: seq<Expression>)
    ensures DistinctIds(judged)
    ensures forall e :: e in judged ==> Met(m, item, e)
    ensures forall e :: Met(m, item, e) ==> exists e' :: e' in judged && e'.id == e.id
  {
    var keys := BuildKeys(item);
    var handled: set<int> := {};
    judged := [];
    for i := 0 to |keys|
      invariant DistinctIds(judged) && handled == IdsOf(judged)
      invariant forall e :: e in judged ==> Met(m, item, e)
      invariant forall j, e :: 0 <= j < i && Indexed(m, keys[j], e) && Contained(e.tags, Extended(item)) ==>
                e.id in handled
    {
      var key := keys[i];
      if key in m {
        var related := FilterRelated(m[key], item);
        forall e | e in related ensures Met(m, item, e) {
          assert ItemKey(item, key) && Indexed(m, key, e);
        }
        judged, handled := JudgeNew(related, judged, handled);
      }
    }
    forall e | Met(m, item, e) ensures exists e' :: e' in judged && e'.id == e.id {
      var key :| ItemKey(item, key) && Indexed(m, key, e);
      var j :| 0 <= j < |keys| && keys[j] == key;
      assert e.id in handled;
    }
  }

  // ----- against a scan of all expressions -----

  /** The item has the tag with that value; its endpoint counts as a tag unless it has a tag of that name. */
  predicate HasTag(item: JudgeItem, k: string, v: string) {
    if k in item.tags then item.tags[k] == v else k == "endpoint" && v == item.endpoint
  }

  predicate HasTags(item: JudgeItem, tags: Tags) {
    forall k :: k in tags ==> HasTag(item, k, tags[k])
  }

  lemma HasTagsIff(item: JudgeItem, tags: Tags)
    ensures HasTags(item, tags) <==> Contained(tags, Extended(item))
  {
    forall k | k in tags ensures HasTag(item, k, tags[k]) <==> k in Extended(item) && Extended(item)[k] == tags[k] {
    }
  }

  /** What a scan of all expressions would select: the metric, at least one tag, and the item has all tags. */
  predicate Selected(e: Expression, item: JudgeItem) {
    e.metric == item.metric && e.tags != map[] && HasTags(item, e.tags)
  }

  /** Another metric whose index key happens to be one of the item's. */
  ghost predicate Collides(e: Expression, item: JudgeItem) {
    && e.metric != item.metric && HasTags(item, e.tags)
    && exists key :: ItemKey(item, key) && RuleKey(e, key)
  }

  lemma MeetsIff(e: Expression, item: JudgeItem)
    ensures Contained(e.tags, Extended(item)) && (exists key :: ItemKey(item, key) && RuleKey(e, key)) <==>
            Selected(e, item) || Collides(e, item)
  {
    HasTagsIff(item, e.tags);
    if Selected(e, item) {
      var k :| k in e.tags;
      var key := Key(e.metric, k, e.tags[k]);
      assert RuleKey(e, key);
      assert k in Extended(item);
      assert ItemKey(item, key);
    }
  }

  /** Metrics without a slash never collide. */
  lemma PlainMetricsDoNotCollide(e: Expression, item: JudgeItem)
    requires '/' !in e.metric && '/' !in item.metric
    ensures !Collides(e, item)
  {
    if Collides(e, item) {
      var key :| ItemKey(item, key) && RuleKey(e, key);
      var k :| k in e.tags && Key(e.metric, k, e.tags[k]) == key;
      if k' :| k' in item.tags && Key(item.metric, k', item.tags[k']) == key {
        KeyMetric(e.metric, k, e.tags[k], item.metric, k', item.tags[k']);
      } else {
        KeyMetric(e.metric, k, e.tags[k], item.metric, "endpoint", item.endpoint);
      }
    }
  }

  /** With slashes an expression on another metric can be judged. */
  lemma SlashedMetricsCollide(e: Expression, item: JudgeItem)
    requires e == Expression(1, "a/b", map["c" := "v"])
    requires item == JudgeItem("host", "a", 0.0, 60, "GAUGE", map["b/c" := "v", "c" := "v"])
    ensures Collides(e, item) && !Selected(e, item)
  {
    var key := Key(item.metric, "b/c", "v");
    assert Key(e.metric, "c", "v") == "a/b/c=v" == key;
    assert "c" in e.tags.Keys && e.tags["c"] == "v";
    assert RuleKey(e, key);
    assert "b/c" in item.tags.Keys && item.tags["b/c"] == "v";
  }

  /** Rebuilding the index and checking an item against it: every expression with a unique id is judged
      exactly when a scan selects it, or its key collides with one of the item's; each id at most once. */
  method JudgeByIndex(expressions: seq<Expression>, item: JudgeItem) returns (judged: seq<Expression>)
    requires DistinctIds(expressions)
    ensures DistinctIds(judged)
    ensures forall e :: e in judged <==> e in expressions && (Selected(e, item) || Collides(e, item))
    ensures '/' !in item.metric && (forall e :: e in expressions ==> '/' !in e.metric) ==>
              forall e :: e in judged <==> e in expressions && Selected(e, item)
  {
    var m := RebuildExpressionMap(expressions);
    judged := CheckExpression(m, item);
    forall e ensures e in judged <==> e in expressions && (Selected(e, item) || Collides(e, item)) {
      JudgedIff(m, expressions, item, judged, e);
    }
    forall e: Expression | '/' !in item.metric && '/' !in e.metric ensures !Collides(e, item) {
      PlainMetricsDoNotCollide(e, item);
    }
  }

  lemma JudgedIff(m: map<string, seq<Expression>>, expressions: seq<Expression>, item: JudgeItem,
                  judged: seq<Expression>, e: Expression)
    requires DistinctIds(expressions)
    requires forall key, x :: Indexed(m, key, x) <==> x in expressions && RuleKey(x, key)
    requires forall x :: x in judged ==> Met(m, item, x)
    requires Met(m, item, e) ==> exists x :: x in judged && x.id == e.id
    ensures e in judged <==> e in expressions && (Selected(e, item) || Collides(e, item))
  {
    MetIff(m, expressions, item, e);
    if Met(m, item, e) {
      var x :| x in judged && x.id == e.id;
      MetIff(m, expressions, item, x);
      SameIdSame(expressions, e, x);
    }
  }

  lemma SameIdSame(es: seq<Expression>, e: Expression, x: Expression)
    requires DistinctIds(es) && e in es && x in es && e.id == x.id
    ensures e == x
  {
    var i :| 0 <= i < |es| && es[i] == e;
    var j :| 0 <= j < |es| && es[j] == x;
  }

  lemma MetIff(m: map<string, seq<Expression>>, expressions: seq<Expression>, item: JudgeItem, e: Expression)
    requires forall key, e :: Indexed(m, key, e) <==> e in expressions && RuleKey(e, key)
    ensures Met(m, item, e) <==> e in expressions && (Selected(e, item) || Collides(e, item))
  {
    MeetsIff(e, item);
    if e in expressions && (Selected(e, item) || Collides(e, item)) {
      var key :| ItemKey(item, key) && RuleKey(e, key);
      assert Indexed(m, key, e);
    }
  }

  // ----- strategies, by host and metric -----

  datatype Strategy = Strategy(id: int, metric: string, tags: Tags)
  datatype HostStrategy = HostStrategy(hostname: string, strategies: seq<Strategy>)

  function HostKey(host: string, metric: string): string {
    host + "/" + metric
  }

  lemma HostKeyParts(host: string, metric: string, host': string, metric': string)
    requires HostKey(host, metric) == HostKey(host', metric') && '/' !in host && '/' !in host'
    ensures host == host' && metric == metric'
  {
    UniqueCut(host, metric, host', metric', '/');
  }

  /** The strategies a scan finds, in order and with repetitions. */
  function ScanHost(host: string, ss: seq<Strategy>, key: string): seq<Strategy> {
    Own(ss, (s: Strategy) => HostKey(host, s.metric), key)
  }

  function Scan(hs: seq<HostStrategy>, key: string): seq<Strategy> {
    if hs == [] then []
    else Scan(hs[..|hs| - 1], key) + ScanHost(hs[|hs| - 1].hostname, hs[|hs| - 1].strategies, key)
  }

  method AddStrategies(before: map<string, seq<Strategy>>, hostname: string, ss: seq<Strategy>)
    returns (m: map<string, seq<Strategy>>)
    ensures forall key :: Under(m, key) == Under(before, key) + ScanHost(hostname, ss, key)
  {
    m := AppendAll(before, ss, (s: Strategy) => HostKey(hostname, s.metric));
  }

  method RebuildStrategyMap(hs: seq<HostStrategy>) returns (m: map<string, seq<Strategy>>)
    ensures forall key :: Under(m, key) == Scan(hs, key)
  {
    m := map[];
    for i := 0 to |hs|
      invariant forall key :: Under(m, key) == Scan(hs[..i], key)
    {
      assert hs[..i + 1][..i] == hs[..i];
      m := AddStrategies(m, hs[i].hostname, hs[i].strategies);
    }
    assert hs[..|hs|] == hs;
  }

  /** With slash-free host names, what the scan finds belongs to that host and that metric. */
  lemma {:induction false} ScanIsOwn(hs: seq<HostStrategy>, host: string, metric: string, s: Strategy)
    requires '/' !in host && forall i :: 0 <= i < |hs| ==> '/' !in hs[i].hostname
    ensures s in Scan(hs, HostKey(host, metric)) <==>
            s.metric == metric && exists i :: 0 <= i < |hs| && hs[i].hostname == host && s in hs[i].strategies
  {
    if hs != [] {
      var init, h := hs[..|hs| - 1], hs[|hs| - 1];
      ScanIsOwn(init, host, metric, s);
      ScanHostIsOwn(h.hostname, h.strategies, host, metric, s);
      assert forall i :: 0 <= i < |init| ==> init[i] == hs[i];
      assert forall i :: 0 <= i < |hs| && i != |hs| - 1 ==> hs[i] == init[i];
    }
  }

  lemma ScanHostIsOwn(own: string, ss: seq<Strategy>, host: string, metric: string, s: Strategy)
    requires '/' !in host && '/' !in own
    ensures s in ScanHost(own, ss, HostKey(host, metric)) <==> own == host && s.metric == metric && s in ss
  {
    OwnIff(ss, (x: Strategy) => HostKey(own, x.metric), HostKey(host, metric), s);
    if HostKey(own, s.metric) == HostKey(host, metric) {
      HostKeyParts(own, s.metric, host, metric);
    }
  }

  // ----- what is judged, in terms of what is given -----

  predicate SlashFree(hs: seq<HostStrategy>, item: JudgeItem) {
    '/' !in item.endpoint && forall i :: 0 <= i < |hs| ==> '/' !in hs[i].hostname
  }

  function PairsOf(hostname: string, ss: seq<Strategy>): (r: seq<(string, Strategy)>)
    ensures |r| == |ss| && forall i :: 0 <= i < |ss| ==> r[i] == (hostname, ss[i])
  {
    seq(|ss|, i requires 0 <= i < |ss| => (hostname, ss[i]))
  }

  /** All strategies with their hosts, as they are given. */
  function Given(hs: seq<HostStrategy>): seq<(string, Strategy)> {
    if hs == [] then [] else Given(hs[..|hs| - 1]) + PairsOf(hs[|hs| - 1].hostname, hs[|hs| - 1].strategies)
  }

  /** A strategy of the item's host, on its metric, every tag of which the item has with the same value. */
  predicate Related(g: (string, Strategy), item: JudgeItem) {
    && g.0 == item.endpoint && g.1.metric == item.metric
    && forall k :: k in g.1.tags ==> k in item.tags && item.tags[k] == g.1.tags[k]
  }

  ghost function RelatedTo(item: JudgeItem): ((string, Strategy)) -> bool {
    g => Related(g, item)
  }

  /** Exactly the related ones are judged, in the order and as often as they are given: `at` has their places. */
  ghost predicate RelatedExactly(judged: seq<Strategy>, given: seq<(string, Strategy)>, item: JudgeItem) {
    exists at :: JudgedAt(at, judged, given, item)
  }

  ghost predicate JudgedAt(at: seq<int>, judged: seq<Strategy>, given: seq<(string, Strategy)>, item: JudgeItem) {
    && |at| == |judged|
    && (forall n :: 0 <= n < |at| ==> 0 <= at[n] < |given| && judged[n] == given[at[n]].1)
    && (forall n, m :: 0 <= n < m < |at| ==> at[n] < at[m])
    && (forall i :: 0 <= i < |given| ==> (i in at <==> Related(given[i], item)))
  }

  lemma SelectedAre(at: seq<int>, given: seq<(string, Strategy)>, item: JudgeItem)
    requires Selects(at, given, Filter(given, RelatedTo(item))) && Covers(at, given, RelatedTo(item))
    ensures RelatedExactly(Strategies(Filter(given, RelatedTo(item))), given, item)
  {
    assert JudgedAt(at, Strategies(Filter(given, RelatedTo(item))), given, item);
  }

  function Strategies(given: seq<(string, Strategy)>): (r: seq<Strategy>)
    ensures |r| == |given| && forall i :: 0 <= i < |r| ==> r[i] == given[i].1
  {
    seq(|given|, i requires 0 <= i < |given| => given[i].1)
  }

  lemma RelatedIff(hostname: string, s: Strategy, item: JudgeItem)
    requires '/' !in hostname && '/' !in item.endpoint
    ensures Related((hostname, s), item) <==>
            HostKey(hostname, s.metric) == HostKey(item.endpoint, item.metric) && Contained(s.tags, item.tags)
  {
    if HostKey(hostname, s.metric) == HostKey(item.endpoint, item.metric) {
      HostKeyParts(hostname, s.metric, item.endpoint, item.metric);
    }
  }

  ghost function Carries(tags: Tags): Strategy -> bool {
    (s: Strategy) => Contained(s.tags, tags)
  }

  /** One more strategy of a host, kept or not at both ends alike. */
  lemma HostFilterNext(hostname: string, init: seq<Strategy>, s: Strategy, item: JudgeItem)
    requires '/' !in hostname && '/' !in item.endpoint
    ensures var key, carries := HostKey(item.endpoint, item.metric), Carries(item.tags);
            var own, all := Filter(ScanHost(hostname, init, key), carries), ScanHost(hostname, init + [s], key);
            Filter(all, carries) == if Related((hostname, s), item) then own + [s] else own
  {
    var key := HostKey(item.endpoint, item.metric);
    RelatedIff(hostname, s, item);
    OwnNext(init, (x: Strategy) => HostKey(hostname, x.metric), s, key);
    FilterNext(ScanHost(hostname, init, key), s, Carries(item.tags));
  }

  lemma PairsNext(hostname: string, init: seq<Strategy>, s: Strategy, item: JudgeItem)
    ensures var pairs := Filter(PairsOf(hostname, init), RelatedTo(item));
            Filter(PairsOf(hostname, init + [s]), RelatedTo(item)) ==
            if Related((hostname, s), item) then pairs + [(hostname, s)] else pairs
  {
    assert PairsOf(hostname, init + [s]) == PairsOf(hostname, init) + [(hostname, s)];
    FilterNext(PairsOf(hostname, init), (hostname, s), RelatedTo(item));
  }

  lemma StrategiesAppend(a: seq<(string, Strategy)>, b: seq<(string, Strategy)>)
    ensures Strategies(a + b) == Strategies(a) + Strategies(b)
  {
  }

  lemma {:induction false} HostIsRelated(hostname: string, ss: seq<Strategy>, item: JudgeItem)
    requires '/' !in hostname && '/' !in item.endpoint
    ensures Filter(ScanHost(hostname, ss, HostKey(item.endpoint, item.metric)), Carries(item.tags)) ==
            Strategies(Filter(PairsOf(hostname, ss), RelatedTo(item)))
  {
    if ss != [] {
      var init, s := ss[..|ss| - 1], ss[|ss| - 1];
      assert ss == init + [s];
      HostIsRelated(hostname, init, item);
      HostFilterNext(hostname, init, s, item);
      PairsNext(hostname, init, s, item);
      StrategiesAppend(Filter(PairsOf(hostname, init), RelatedTo(item)), [(hostname, s)]);
    }
  }

  lemma {:induction false} ScanIsRelated(hs: seq<HostStrategy>, item: JudgeItem)
    requires SlashFree(hs, item)
    ensures Filter(Scan(hs, HostKey(item.endpoint, item.metric)), Carries(item.tags)) ==
            Strategies(Filter(Given(hs), RelatedTo(item)))
  {
    if hs != [] {
      var init, h, key := hs[..|hs| - 1], hs[|hs| - 1], HostKey(item.endpoint, item.metric);
      ScanIsRelated(init, item);
      HostIsRelated(h.hostname, h.strategies, item);
      FilterAppend(Scan(init, key), ScanHost(h.hostname, h.strategies, key), Carries(item.tags));
      FilterAppend(Given(init), PairsOf(h.hostname, h.strategies), RelatedTo(item));
      StrategiesAppend(Filter(Given(init), RelatedTo(item)),
                       Filter(PairsOf(h.hostname, h.strategies), RelatedTo(item)));
    }
  }

  lemma CarriedIsRelated(hs: seq<HostStrategy>, item: JudgeItem)
    requires SlashFree(hs, item)
    ensures RelatedExactly(Filter(Scan(hs, HostKey(item.endpoint, item.metric)), Carries(item.tags)), Given(hs), item)
  {
    ScanIsRelated(hs, item);
    FilterSelects(Given(hs), RelatedTo(item));
    FilterCovers(Given(hs), RelatedTo(item));
    SelectedAre(PlacesOf(Given(hs), RelatedTo(item)), Given(hs), item);
  }

  /** The strategies judged for an item are those a scan finds under its endpoint and metric whose tags it carries; with
      slash-free host names, exactly the related ones among all that are given. */
  method CheckStrategy(hs: seq<HostStrategy>, item: JudgeItem) returns (judged: seq<Strategy>)
    ensures judged == Filter(Scan(hs, HostKey(item.endpoint, item.metric)), Carries(item.tags))
    ensures SlashFree(hs, item) ==> RelatedExactly(judged, Given(hs), item)
  {
    var m := RebuildStrategyMap(hs);
    var key := HostKey(item.endpoint, item.metric);
    judged := [];
    assert Under(m, key) == Scan(hs, key);
    if key in m {
      var ss := m[key];
      for i := 0 to |ss|
        invariant judged == Filter(ss[..i], Carries(item.tags))
      {
        assert ss[..i + 1][..i] == ss[..i];
        var related := TagsRelated(ss[i].tags, item.tags);
        if related {
          judged := judged + [ss[i]];
        }
      }
      assert ss[..|ss|] == ss;
    }
    if SlashFree(hs, item) {
      CarriedIsRelated(hs, item);
    }
  }
}
