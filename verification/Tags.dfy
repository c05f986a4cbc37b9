/** The canonical text of a tag map, its two parsers, and the keys built from it
    (common/utils/tags.go, func.go, counter.go). */
module Tags {
  import opened Options
  import opened Seqs
  import opened Strings

  type TagMap = map<string, string>

  // ----- the order of strings, and sort.Strings -----

  predicate Le(a: string, b: string) {
    a == "" || (b != "" && (a[0] < b[0] || (a[0] == b[0] && Le(a[1..], b[1..]))))
  }

  lemma {:induction false} LeTotal(a: string, b: string)
    ensures Le(a, b) || Le(b, a)
    ensures Le(a, b) && Le(b, a) ==> a == b
  {
    if a != "" && b != "" {
      LeTotal(a[1..], b[1..]);
      if Le(a, b) && Le(b, a) {
        assert a == [a[0]] + a[1..] && b == [b[0]] + b[1..];
      }
    }
  }

  lemma {:induction false} LeTransitive(a: string, b: string, c: string)
    requires Le(a, b) && Le(b, c)
    ensures Le(a, c)
  {
    if a != "" {
      LeTransitiveTail(a, b, c);
    }
  }

  lemma {:induction false} LeTransitiveTail(a: string, b: string, c: string)
    requires a != "" && Le(a, b) && Le(b, c)
    ensures Le(a, c)
    decreases |a|
  {
    if a[0] == b[0] == c[0] && a[1..] != "" {
      LeTransitiveTail(a[1..], b[1..], c[1..]);
    }
  }

  /** The order of the dictionary: one is the start of the other, or has the smaller character where they differ
      first. */
  lemma {:induction false} LeIff(a: string, b: string)
    ensures Le(a, b) <==> exists n :: FirstBelow(a, b, n)
  {
    if a == "" {
      assert FirstBelow(a, b, 0);
    } else if b != "" && a[0] == b[0] {
      LeIff(a[1..], b[1..]);
      if n :| FirstBelow(a[1..], b[1..], n) {
        FirstBelowTail(a, b, n + 1);
      }
      if n :| FirstBelow(a, b, n) {
        FirstBelowTail(a, b, n);
      }
    } else if Le(a, b) {
      assert FirstBelow(a, b, 0);
    }
  }

  ghost predicate FirstBelow(a: string, b: string, n: int) {
    && 0 <= n <= |a| && n <= |b| && a[..n] == b[..n]
    && (n == |a| || (n < |b| && a[n] < b[n]))
  }

  lemma FirstBelowTail(a: string, b: string, n: int)
    requires a != "" && b != "" && a[0] == b[0]
    ensures n > 0 ==> (FirstBelow(a, b, n) <==> FirstBelow(a[1..], b[1..], n - 1))
    ensures !FirstBelow(a, b, 0)
  {
    if 0 < n <= |a| && n <= |b| {
      assert a[..n] == [a[0]] + a[1..][..n - 1] && b[..n] == [b[0]] + b[1..][..n - 1];
      if a[..n] == b[..n] {
        assert a[1..][..n - 1] == a[..n][1..] && b[1..][..n - 1] == b[..n][1..];
      }
    }
  }

  ghost predicate Ordered(s: seq<string>) {
    forall i, j :: 0 <= i < j < |s| ==> s[i] != s[j] && Le(s[i], s[j])
  }

  ghost predicate Enumerates(s: seq<string>, keys: set<string>) {
    Ordered(s) && forall k :: k in s <==> k in keys
  }

  function Insert(x: string, s: seq<string>): seq<string> {
    if s == [] then [x]
    else if Le(x, s[0]) then [x] + s
    else [s[0]] + Insert(x, s[1..])
  }

  function Sort(s: seq<string>): seq<string> {
    if s == [] then [] else Insert(s[0], Sort(s[1..]))
  }

  lemma {:induction false} InsertOrdered(x: string, s: seq<string>)
    requires Ordered(s) && x !in s
    ensures Ordered(Insert(x, s)) && forall k :: k in Insert(x, s) <==> k == x || k in s
  {
    if s != [] {
      if Le(x, s[0]) {
        forall i | 0 <= i < |s| ensures Le(x, s[i]) {
          if i > 0 {
            LeTransitive(x, s[0], s[i]);
          }
        }
      } else {
        LeTotal(x, s[0]);
        InsertOrdered(x, s[1..]);
        var r := Insert(x, s[1..]);
        forall i | 0 <= i < |r| ensures s[0] != r[i] && Le(s[0], r[i]) {
          assert r[i] == x || r[i] in s[1..];
        }
      }
    }
  }

  lemma {:induction false} SortEnumerates(s: seq<string>)
    requires forall i, j :: 0 <= i < j < |s| ==> s[i] != s[j]
    ensures Enumerates(Sort(s), set k | k in s)
  {
    if s != [] {
      SortEnumerates(s[1..]);
      InsertOrdered(s[0], Sort(s[1..]));
    }
  }

  /** A set of keys has one sorted enumeration. */
  lemma {:induction false} EnumerationUnique(s: seq<string>, s': seq<string>, keys: set<string>)
    requires Enumerates(s, keys) && Enumerates(s', keys)
    ensures s == s'
  {
    assert s != [] ==> s[0] in s';
    assert s' != [] ==> s'[0] in s;
    if s != [] && s' != [] {
      LeTotal(s[0], s'[0]);
      TailEnumerates(s, keys);
      TailEnumerates(s', keys);
      EnumerationUnique(s[1..], s'[1..], keys - {s[0]});
      assert s == [s[0]] + s[1..] && s' == [s'[0]] + s'[1..];
    }
  }

  lemma TailEnumerates(s: seq<string>, keys: set<string>)
    requires s != [] && Enumerates(s, keys)
    ensures Enumerates(s[1..], keys - {s[0]})
  {
    forall k | k in keys - {s[0]} ensures k in s[1..] {
      assert k in s;
    }
  }

  lemma {:induction false} EnumerationExists(keys: set<string>) returns (s: seq<string>)
    ensures Enumerates(s, keys)
    decreases |keys|
  {
    if keys == {} {
      s := [];
    } else {
      var k :| k in keys;
      var rest := EnumerationExists(keys - {k});
      InsertOrdered(k, rest);
      s := Insert(k, rest);
    }
  }

  ghost function SortedKeys(keys: set<string>): (s: seq<string>)
    ensures Enumerates(s, keys)
  {
    assert exists s :: Enumerates(s, keys) by {
      var s := EnumerationExists(keys);
    }
    var s :| Enumerates(s, keys);
    s
  }

  // ----- printing -----

  function PairOf(k: string, v: string): string {
    k + "=" + v
  }

  function PairsOf(tags: TagMap, keys: seq<string>): (ps: seq<string>)
    requires forall k :: k in keys ==> k in tags
    ensures |ps| == |keys| && forall i :: 0 <= i < |keys| ==> ps[i] == PairOf(keys[i], tags[keys[i]])
  {
    seq(|keys|, i requires 0 <= i < |keys| => PairOf(keys[i], tags[keys[i]]))
  }

  /** `k1=v1,k2=v2` with the keys in order. */
  ghost function Canonical(tags: TagMap): string {
    Join(PairsOf(tags, SortedKeys(tags.Keys)), ',')
  }

  lemma CanonicalOf(tags: TagMap, keys: seq<string>)
    requires Enumerates(keys, tags.Keys)
    ensures Canonical(tags) == Join(PairsOf(tags, keys), ',')
  {
    EnumerationUnique(keys, SortedKeys(tags.Keys), tags.Keys);
  }

  /** Go's map order is arbitrary, and does not show in the result. */
  method SortedTags(tags: TagMap) returns (s: string)
    ensures s == Canonical(tags)
  {
    var size := |tags|;
    if size == 0 {
      CanonicalOf(tags, []);
      return "";
    }
    if size == 1 {
      var k :| k in tags;
      assert tags.Keys == {k} by {
        assert |tags.Keys - {k}| == 0;
      }
      CanonicalOf(tags, [k]);
      return PairOf(k, tags[k]);
    }
    var keys := KeysOf(tags);
    SortEnumerates(keys);
    assert (set k | k in keys) == tags.Keys;
    CanonicalOf(tags, Sort(keys));
    var ret := PrintPairs(tags, Sort(keys));
    s := Join(ret, ',');
  }

  method PrintPairs(tags: TagMap, keys: seq<string>) returns (ret: seq<string>)
    requires forall k :: k in keys ==> k in tags
    ensures ret == PairsOf(tags, keys)
  {
    ret := [];
    for j := 0 to |keys|
      invariant |ret| == j && forall i :: 0 <= i < j ==> ret[i] == PairsOf(tags, keys)[i]
    {
      assert keys[j] in tags;
      ret := ret + [PairOf(keys[j], tags[keys[j]])];
    }
  }

  // ----- parsing -----

  /** The map of the pairs among `parts`; a later pair wins, a part without '=' adds nothing. */
  function TagsOf(parts: seq<string>): TagMap {
    if parts == [] then map[]
    else
      var m, cut := TagsOf(parts[..|parts| - 1]), Cut(parts[|parts| - 1], '=');
      if cut.None? then m else m[cut.value.0 := cut.value.1]
  }

  /** Part `i` is a pair for key `k`, and no later part is. */
  ghost predicate LastPair(parts: seq<string>, k: string, i: int) {
    && 0 <= i < |parts| && IsPairFor(parts[i], k)
    && forall j :: i < j < |parts| ==> !IsPairFor(parts[j], k)
  }

  predicate IsPairFor(part: string, k: string) {
    Plain(k, '=') && |k| < |part| && part[..|k| + 1] == k + ['=']
  }

  lemma PairIsCut(part: string, k: string)
    ensures IsPairFor(part, k) <==> Cut(part, '=').Some? && Cut(part, '=').value.0 == k
    ensures IsPairFor(part, k) ==> Cut(part, '=').value.1 == part[|k| + 1..]
  {
    if IsPairFor(part, k) {
      assert part == k + ['='] + part[|k| + 1..];
      CutPrefix(k, '=', part[|k| + 1..]);
    }
    if Cut(part, '=').Some? && Cut(part, '=').value.0 == k {
      assert part == k + ['='] + Cut(part, '=').value.1;
    }
  }

  /** A key has the value of the last part that is a pair for it, which is all behind the pair's first equals sign. */
  lemma {:induction false} TagsOfIff(parts: seq<string>, k: string, v: string)
    ensures k in TagsOf(parts) && TagsOf(parts)[k] == v <==>
            exists i :: LastPair(parts, k, i) && parts[i][|k| + 1..] == v
  {
    if parts != [] {
      var init, n := parts[..|parts| - 1], |parts| - 1;
      TagsOfIff(init, k, v);
      PairIsCut(parts[n], k);
      if IsPairFor(parts[n], k) {
        assert LastPair(parts, k, n);
      } else {
        forall i ensures LastPair(parts, k, i) <==> LastPair(init, k, i) {
          LastPairInit(parts, k, i);
        }
      }
    }
  }

  lemma LastPairInit(parts: seq<string>, k: string, i: int)
    requires parts != [] && !IsPairFor(parts[|parts| - 1], k)
    ensures LastPair(parts, k, i) <==> LastPair(parts[..|parts| - 1], k, i)
  {
    var init := parts[..|parts| - 1];
    assert forall j :: 0 <= j < |init| ==> init[j] == parts[j];
  }

  /** The tags in a text, spaces dropped. */
  function ReadTags(text: string): TagMap {
    TagsOf(Split(Without(text, ' '), ','))
  }

  predicate AllPairs(parts: seq<string>) {
    forall i :: 0 <= i < |parts| ==> !Plain(parts[i], '=')
  }

  /** The empty text splits into one part that is not a pair. */
  lemma EmptyParts()
    ensures Split("", ',') == [""] && TagsOf([""]) == map[] && Without("", ' ') == ""
  {
    assert [""][..0] == [];
  }

  /** What is read is always clean: neither parser can make a map that its own text would lose. */
  method DictedTagstring(text: string) returns (tags: TagMap)
    ensures tags == ReadTags(text) && Clean(tags)
  {
    PartsClean(text);
    if text == "" {
      EmptyParts();
      return map[];
    }
    var parts := Split(Without(text, ' '), ',');
    tags := map[];
    for i := 0 to |parts|
      invariant tags == TagsOf(parts[..i])
    {
      assert parts[..i + 1][..i] == parts[..i];
      var pair := Cut(parts[i], '=');
      if pair.Some? {
        tags := tags[pair.value.0 := pair.value.1];
      }
    }
    assert parts[..|parts|] == parts;
  }

  method ReadPairs(parts: seq<string>) returns (n: nat, tags: TagMap)
    ensures n <= |parts| && tags == TagsOf(parts[..n]) && AllPairs(parts[..n])
    ensures n < |parts| ==> Plain(parts[n], '=')
  {
    tags, n := map[], 0;
    while n < |parts|
      invariant 0 <= n <= |parts| && tags == TagsOf(parts[..n]) && AllPairs(parts[..n])
    {
      var pair := Cut(parts[n], '=');
      if pair.None? {
        return;
      }
      assert parts[..n + 1][..n] == parts[..n];
      tags := tags[pair.value.0 := pair.value.1];
      n := n + 1;
    }
  }

  /** Fails at the first part that is not a pair, keeping what was read before it. */
  method SplitTagsString(text: string) returns (ok: bool, tags: TagMap)
    ensures var s := Without(text, ' '); var parts := Split(s, ',');
            && (ok <==> s == "" || AllPairs(parts))
            && (ok ==> tags == TagsOf(parts))
            && (!ok ==> exists i :: 0 <= i < |parts| && Plain(parts[i], '=') && AllPairs(parts[..i])
                                    && tags == TagsOf(parts[..i]))
    ensures Clean(tags)
  {
    var s := Without(text, ' ');
    if s == "" {
      EmptyParts();
      return true, map[];
    }
    var parts := Split(s, ',');
    var n;
    n, tags := ReadPairs(parts);
    ok := n == |parts|;
    assert parts[..|parts|] == parts;
    SplitKeepsPlain(s, ',', ' ');
    ParsedClean(parts[..n]);
  }

  // ----- round trip -----

  /** No separator inside a key or a value; a value may hold an equals sign. */
  predicate Clean(tags: TagMap) {
    forall k :: k in tags ==>
      Plain(k, ',') && Plain(k, '=') && Plain(k, ' ') && Plain(tags[k], ',') && Plain(tags[k], ' ')
  }

  lemma {:induction false} JoinPlain(parts: seq<string>, sep: char, c: char)
    requires c != sep && forall i :: 0 <= i < |parts| ==> Plain(parts[i], c)
    ensures Plain(Join(parts, sep), c)
  {
    if |parts| > 1 {
      JoinPlain(parts[1..], sep, c);
    }
  }

  /** The tags with a key among `keys`. */
  function Among<K(==), V>(tags: map<K, V>, keys: seq<K>): map<K, V> {
    map k | k in tags && k in keys :: tags[k]
  }

  lemma AmongNext<K, V>(tags: map<K, V>, keys: seq<K>)
    requires keys != [] && forall k :: k in keys ==> k in tags
    ensures var n := |keys| - 1; Among(tags, keys) == Among(tags, keys[..n])[keys[n] := tags[keys[n]]]
  {
    assert keys == keys[..|keys| - 1] + [keys[|keys| - 1]];
  }

  lemma AmongAll<K, V>(tags: map<K, V>, keys: seq<K>)
    requires forall k :: k in tags ==> k in keys
    ensures Among(tags, keys) == tags
  {
  }

  lemma PairsOfNext(tags: TagMap, keys: seq<string>)
    requires keys != [] && forall k :: k in keys ==> k in tags
    ensures var n := |keys| - 1;
            PairsOf(tags, keys) == PairsOf(tags, keys[..n]) + [PairOf(keys[n], tags[keys[n]])]
  {
  }

  lemma PairCut(k: string, v: string)
    requires Plain(k, '=')
    ensures Cut(PairOf(k, v), '=') == Some((k, v))
  {
    assert PairOf(k, v) == k + ['='] + v;
    CutPrefix(k, '=', v);
  }

  /** One more pair is read as one more tag. */
  lemma TagsOfNext(parts: seq<string>, k: string, v: string)
    requires Plain(k, '=')
    ensures TagsOf(parts + [PairOf(k, v)]) == TagsOf(parts)[k := v]
    ensures AllPairs(parts + [PairOf(k, v)]) <==> AllPairs(parts)
  {
    PairCut(k, v);
    AppendPrefix(parts, PairOf(k, v));
  }

  lemma AppendPrefix<T>(s: seq<T>, x: T)
    ensures (s + [x])[..|s + [x]| - 1] == s && (s + [x])[|s + [x]| - 1] == x
  {
  }

  /** Reading pairs back gives the tags they were printed from. */
  lemma {:induction false} PairsBack(tags: TagMap, keys: seq<string>)
    requires forall k :: k in keys ==> k in tags && Plain(k, '=')
    ensures AllPairs(PairsOf(tags, keys)) && TagsOf(PairsOf(tags, keys)) == Among(tags, keys)
  {
    if keys != [] {
      var n := |keys| - 1;
      PairsBack(tags, keys[..n]);
      PairsOfNext(tags, keys);
      TagsOfNext(PairsOf(tags, keys[..n]), keys[n], tags[keys[n]]);
      AmongNext(tags, keys);
    }
  }

  lemma CleanBack(tags: TagMap)
    requires Clean(tags)
    ensures var s := Without(Canonical(tags), ' ');
            (s == "" || AllPairs(Split(s, ','))) && TagsOf(Split(s, ',')) == tags
  {
    var keys := SortedKeys(tags.Keys);
    assert forall k :: k in tags <==> k in keys;
    if keys == [] {
      assert tags == map[];
      EmptyParts();
    } else {
      PrintedSplits(tags, keys);
      PairsBack(tags, keys);
      AmongAll(tags, keys);
    }
  }

  /** A printed clean map has no spaces and splits into its pairs. */
  lemma PrintedSplits(tags: TagMap, keys: seq<string>)
    requires Clean(tags) && keys != [] && forall k :: k in keys ==> k in tags
    ensures var s := Join(PairsOf(tags, keys), ','); Without(s, ' ') == s && Split(s, ',') == PairsOf(tags, keys)
  {
    var pairs := PairsOf(tags, keys);
    forall i | 0 <= i < |keys| ensures Plain(pairs[i], ',') && Plain(pairs[i], ' ') {
      assert keys[i] in tags;
    }
    JoinPlain(pairs, ',', ' ');
    SplitJoin(pairs, ',');
  }

  /** Whatever is parsed is clean. */
  lemma {:induction false} ParsedClean(parts: seq<string>)
    requires forall i :: 0 <= i < |parts| ==> Plain(parts[i], ',') && Plain(parts[i], ' ')
    ensures Clean(TagsOf(parts))
  {
    if parts != [] {
      ParsedClean(parts[..|parts| - 1]);
    }
  }

  lemma PartsClean(text: string)
    ensures Clean(ReadTags(text))
  {
    SplitKeepsPlain(Without(text, ' '), ',', ' ');
    ParsedClean(Split(Without(text, ' '), ','));
  }

  lemma {:induction false} SplitKeepsPlain(s: string, sep: char, c: char)
    requires Plain(s, c)
    ensures forall i :: 0 <= i < |Split(s, sep)| ==> Plain(Split(s, sep)[i], c)
  {
    if s != "" {
      SplitKeepsPlain(s[1..], sep, c);
    }
  }

  /** Parsing undoes printing exactly for the clean maps: of any other map something is lost. */
  lemma RoundTripIff(tags: TagMap)
    ensures var s := Without(Canonical(tags), ' ');
            Clean(tags) <==> (s == "" || AllPairs(Split(s, ','))) && ReadTags(Canonical(tags)) == tags
    ensures Clean(tags) <==> ReadTags(Canonical(tags)) == tags
  {
    if Clean(tags) {
      CleanBack(tags);
    }
    PartsClean(Canonical(tags));
  }

  /** The canonical text identifies a clean map. */
  lemma CanonicalInjective(tags: TagMap, tags': TagMap)
    requires Clean(tags) && Clean(tags') && Canonical(tags) == Canonical(tags')
    ensures tags == tags'
  {
    RoundTripIff(tags);
    RoundTripIff(tags');
  }

  /** A value with a comma, which only a map that was not read from a text can hold, is not read back. */
  lemma CommaIsLost(tags: TagMap)
    requires tags == map["a" := "1,b=2"]
    ensures ReadTags(Canonical(tags)) != tags
  {
    assert "a" in tags;
    RoundTripIff(tags);
  }

  // ----- the keys -----

  ghost function PK(endpoint: string, metric: string, tags: TagMap): string {
    if |tags| == 0 then endpoint + "/" + metric else endpoint + "/" + metric + "/" + Canonical(tags)
  }

  function PK2(endpoint: string, counter: string): string {
    endpoint + "/" + counter
  }

  ghost function Counter(metric: string, tags: TagMap): string {
    if |tags| == 0 then metric else metric + "/" + Canonical(tags)
  }

  lemma AppendTwice<T>(a: seq<T>, b: seq<T>, c: seq<T>, d: seq<T>)
    ensures a + (b + c + d) == a + b + c + d
  {
  }

  /** The key a sample is stored under is the key its counter is queried with. */
  lemma StoreKeyIsQueryKey(endpoint: string, metric: string, tags: TagMap)
    ensures PK(endpoint, metric, tags) == PK2(endpoint, Counter(metric, tags))
  {
    AppendTwice(endpoint + "/", metric, "/", Canonical(tags));
  }

  /** Two samples of one endpoint and a slash-free metric share a key only if metric and clean tags agree. */
  lemma CounterInjective(metric: string, tags: TagMap, metric': string, tags': TagMap)
    requires '/' !in metric && '/' !in metric' && Clean(tags) && Clean(tags')
    requires Counter(metric, tags) == Counter(metric', tags')
    ensures metric == metric' && tags == tags'
  {
    CounterSlash(metric, tags);
    CounterSlash(metric', tags');
    if tags != map[] && tags' != map[] {
      UniqueCut(metric, Canonical(tags), metric', Canonical(tags'), '/');
      CanonicalInjective(tags, tags');
    }
  }

  lemma CounterSlash(metric: string, tags: TagMap)
    requires '/' !in metric
    ensures '/' in Counter(metric, tags) <==> tags != map[]
  {
    if tags != map[] {
      assert Counter(metric, tags)[|metric|] == '/';
    }
  }
}
