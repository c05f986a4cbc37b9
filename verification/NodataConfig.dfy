/** The nodata configurations (modules/nodata/config/service/mockcfg.go, config_cron.go): which rows of the database are
    taken, and which of them applies to a key. The hosts that a row's object stands for are part of the row. */
module NodataConfig {
  import opened Seqs
  import opened Tags

  datatype Row = Row(id: int, name: string, objType: string, endpoints: seq<string>, metric: string, tagText: string,
                     dsType: string, step: int, mock: real)

  datatype NdConfig = NdConfig(id: int, name: string, objType: string, endpoint: string, metric: string, tags: TagMap,
                               dsType: string, step: int, mock: real)

  /** checkMockCfg. */
  predicate CheckMockCfg(row: Row) {
    row.metric != "" && row.dsType == "GAUGE" && row.step >= 1
  }

  /** What the check leaves of a configuration. */
  predicate Guarded(c: NdConfig) {
    c.metric != "" && c.dsType == "GAUGE" && c.step >= 1
  }

  predicate IsGroup(c: NdConfig) {
    c.objType == "group"
  }

  predicate IsHost(c: NdConfig) {
    c.objType == "host"
  }

  /** isSpuerNodataCfg: the first configuration stays unless a host's meets a group's. */
  predicate Stays(a: NdConfig, b: NdConfig) {
    !(IsGroup(a) && IsHost(b))
  }

  ghost function KeyOf(c: NdConfig): string {
    PK(c.endpoint, c.metric, c.tags)
  }

  ghost const BY_KEY: NdConfig -> string := (c: NdConfig) => KeyOf(c)

  method PrimaryKey(c: NdConfig) returns (pk: string)
    ensures pk == BY_KEY(c)
  {
    if |c.tags| == 0 {
      return c.endpoint + "/" + c.metric;
    }
    var text := SortedTags(c.tags);
    pk := c.endpoint + "/" + c.metric + "/" + text;
  }

  // ----- the candidates, in the order of the rows -----

  function ConfigOf(row: Row, endpoint: string): NdConfig {
    NdConfig(row.id, row.name, row.objType, endpoint, row.metric, ReadTags(row.tagText), row.dsType, row.step, row.mock)
  }

  function ConfigsOf(row: Row, endpoints: seq<string>): (r: seq<NdConfig>)
    ensures |r| == |endpoints| && forall i :: 0 <= i < |r| ==> r[i] == ConfigOf(row, endpoints[i])
  {
    seq(|endpoints|, i requires 0 <= i < |endpoints| => ConfigOf(row, endpoints[i]))
  }

  function Candidates(rows: seq<Row>): seq<NdConfig> {
    if rows == [] then []
    else
      var before, row := Candidates(rows[..|rows| - 1]), rows[|rows| - 1];
      if CheckMockCfg(row) then before + ConfigsOf(row, row.endpoints) else before
  }

  /** Only rows that pass the check make candidates. */
  lemma {:induction false} CandidatesGuarded(rows: seq<Row>)
    ensures forall i :: 0 <= i < |Candidates(rows)| ==> Guarded(Candidates(rows)[i])
  {
    if rows != [] {
      CandidatesGuarded(rows[..|rows| - 1]);
    }
  }

  // ----- choosing -----

  ghost function Put<C, K>(m: map<K, C>, c: C, key: C -> K, stays: (C, C) -> bool): map<K, C> {
    if key(c) in m && stays(m[key(c)], c) then m else m[key(c) := c]
  }

  ghost function Chosen<C, K>(cs: seq<C>, key: C -> K, stays: (C, C) -> bool): map<K, C> {
    if cs == [] then map[] else Put(Chosen(cs[..|cs| - 1], key, stays), cs[|cs| - 1], key, stays)
  }

  lemma ChosenNext<C, K>(before: seq<C>, cs: seq<C>, i: nat, key: C -> K, stays: (C, C) -> bool)
    requires i < |cs|
    ensures Chosen(before + cs[..i + 1], key, stays) == Put(Chosen(before + cs[..i], key, stays), cs[i], key, stays)
  {
    var next := before + cs[..i + 1];
    assert next[..|next| - 1] == before + cs[..i] && next[|next| - 1] == cs[i];
  }

  /** The candidate left after each later one has tried to take its place. */
  function Winning<C>(own: seq<C>, stays: (C, C) -> bool): (n: nat)
    requires own != []
    ensures n < |own|
  {
    if |own| == 1 then 0
    else
      var last, n := |own| - 1, Winning(own[..|own| - 1], stays);
      if stays(own[n], own[last]) then n else last
  }

  lemma WinningNext<C>(own: seq<C>, c: C, stays: (C, C) -> bool)
    ensures Winning(own + [c], stays) ==
            if own == [] then 0 else if stays(own[Winning(own, stays)], c) then Winning(own, stays) else |own|
  {
    assert (own + [c])[..|own|] == own;
  }

  /** A key is chosen for when it has a candidate; the choice is the candidate that wins. */
  lemma {:induction false} ChosenIsOwn<C, K>(cs: seq<C>, key: C -> K, stays: (C, C) -> bool, k: K)
    ensures k in Chosen(cs, key, stays) <==> Own(cs, key, k) != []
    ensures k in Chosen(cs, key, stays) ==>
              Chosen(cs, key, stays)[k] == Own(cs, key, k)[Winning(Own(cs, key, k), stays)]
  {
    if cs != [] {
      var init, c := cs[..|cs| - 1], cs[|cs| - 1];
      ChosenIsOwn(init, key, stays, k);
      WinningNext(Own(init, key, k), c, stays);
    }
  }

  ghost const STAYS: (NdConfig, NdConfig) -> bool := (a: NdConfig, b: NdConfig) => Stays(a, b)

  ghost predicate NoHost(own: seq<NdConfig>, n: int) {
    forall j :: 0 <= j < n && j < |own| ==> !IsHost(own[j])
  }

  /** The first host when the first candidate is a group and a host follows, otherwise the first candidate. */
  ghost predicate IsWinner(own: seq<NdConfig>, n: int) {
    && 0 <= n < |own|
    && if n == 0 then !IsGroup(own[0]) || NoHost(own, |own|)
       else IsGroup(own[0]) && IsHost(own[n]) && NoHost(own, n)
  }

  lemma {:induction false} WinningIsWinner(own: seq<NdConfig>)
    requires own != []
    ensures IsWinner(own, Winning(own, STAYS))
  {
    if |own| > 1 {
      var last := |own| - 1;
      WinningIsWinner(own[..last]);
      assert forall j :: 0 <= j < last ==> own[..last][j] == own[j];
    }
  }

  lemma WinnerUnique(own: seq<NdConfig>, n: int, m: int)
    requires IsWinner(own, n) && IsWinner(own, m)
    ensures n == m
  {
  }

  /** Which configuration a key gets. */
  lemma ChosenIsWinner(rows: seq<Row>, k: string, n: int)
    requires var own := Own(Candidates(rows), BY_KEY, k); IsWinner(own, n)
    ensures var m := Chosen(Candidates(rows), BY_KEY, STAYS);
            k in m && m[k] == Own(Candidates(rows), BY_KEY, k)[n]
  {
    var own := Own(Candidates(rows), BY_KEY, k);
    ChosenIsOwn(Candidates(rows), BY_KEY, STAYS, k);
    WinningIsWinner(own);
    WinnerUnique(own, n, Winning(own, STAYS));
  }

  method GetMockCfgFromDB(rows: seq<Row>) returns (ret: map<string, NdConfig>)
    ensures ret == Chosen(Candidates(rows), BY_KEY, STAYS)
  {
    ret := map[];
    for i := 0 to |rows|
      invariant ret == Chosen(Candidates(rows[..i]), BY_KEY, STAYS)
    {
      assert rows[..i + 1][..i] == rows[..i];
      if CheckMockCfg(rows[i]) {
        ret := AddRow(rows[i], Candidates(rows[..i]), ret);
      }
    }
    assert rows[..|rows|] == rows;
  }

  method PutConfig(m: map<string, NdConfig>, uuid: string, c: NdConfig) returns (ret: map<string, NdConfig>)
    requires uuid == BY_KEY(c)
    ensures ret == Put(m, c, BY_KEY, STAYS)
  {
    if uuid in m && Stays(m[uuid], c) {
      return m;
    }
    return m[uuid := c];
  }

  method AddRow(row: Row, ghost before: seq<NdConfig>, m: map<string, NdConfig>) returns (ret: map<string, NdConfig>)
    requires m == Chosen(before, BY_KEY, STAYS)
    ensures ret == Chosen(before + ConfigsOf(row, row.endpoints), BY_KEY, STAYS)
  {
    ghost var cs := ConfigsOf(row, row.endpoints);
    var tags := DictedTagstring(row.tagText);
    ret := m;
    assert before + cs[..0] == before;
    for i := 0 to |row.endpoints|
      invariant ret == Chosen(before + cs[..i], BY_KEY, STAYS)
    {
      var c := NdConfig(row.id, row.name, row.objType, row.endpoints[i], row.metric, tags, row.dsType, row.step,
          row.mock);
      var uuid := PrimaryKey(c);
      ChosenNext(before, cs, i, BY_KEY, STAYS);
      ret := PutConfig(ret, uuid, c);
    }
    assert cs[..|row.endpoints|] == cs;
  }

  // ----- the map that the judge reads -----

  /** Each configuration is under its own key. */
  ghost predicate Keyed(m: map<string, NdConfig>) {
    forall k :: k in m ==> BY_KEY(m[k]) == k
  }

  predicate HasEndpoint(c: NdConfig) {
    c.endpoint != ""
  }

  function Located<K>(m: map<K, NdConfig>): map<K, NdConfig> {
    map k | k in m && HasEndpoint(m[k]) :: m[k]
  }

  ghost function Loaded(rows: seq<Row>): map<string, NdConfig> {
    Located(Chosen(Candidates(rows), BY_KEY, STAYS))
  }

  function LocatedAmong<K(==)>(m: map<K, NdConfig>, keys: seq<K>): map<K, NdConfig> {
    if keys == [] then map[]
    else
      var before, k := LocatedAmong(m, keys[..|keys| - 1]), keys[|keys| - 1];
      if k in m && HasEndpoint(m[k]) then before[k := m[k]] else before
  }

  lemma LocatedNext<K>(m: map<K, NdConfig>, keys: seq<K>, i: nat)
    requires i < |keys| && keys[i] in m
    ensures var before := LocatedAmong(m, keys[..i]);
            LocatedAmong(m, keys[..i + 1]) == if HasEndpoint(m[keys[i]]) then before[keys[i] := m[keys[i]]] else before
  {
    assert keys[..i + 1][..i] == keys[..i];
  }

  lemma {:induction false} LocatedKeys<K>(m: map<K, NdConfig>, keys: seq<K>)
    ensures LocatedAmong(m, keys) == map k | k in m && k in keys && HasEndpoint(m[k]) :: m[k]
  {
    if keys != [] {
      LocatedKeys(m, keys[..|keys| - 1]);
      assert keys == keys[..|keys| - 1] + [keys[|keys| - 1]];
    }
  }

  lemma AllLocated<K>(m: map<K, NdConfig>, keys: seq<K>)
    requires forall k :: k in m ==> k in keys
    ensures LocatedAmong(m, keys) == Located(m)
  {
    LocatedKeys(m, keys);
  }

  lemma ChosenKeyed(cs: seq<NdConfig>)
    ensures Keyed(Chosen(cs, BY_KEY, STAYS))
  {
    var m := Chosen(cs, BY_KEY, STAYS);
    forall k | k in m ensures BY_KEY(m[k]) == k {
      ChosenIsOwn(cs, BY_KEY, STAYS, k);
      OwnIff(cs, BY_KEY, k, m[k]);
    }
  }

  /** The configurations with an endpoint, put under their keys once more. */
  method Cache(configs: map<string, NdConfig>) returns (nm: map<string, NdConfig>)
    requires Keyed(configs)
    ensures nm == Located(configs)
  {
    nm := map[];
    var keys := KeysOf(configs);
    for i := 0 to |keys|
      invariant nm == LocatedAmong(configs, keys[..i])
    {
      var ndc := configs[keys[i]];
      LocatedNext(configs, keys, i);
      if HasEndpoint(ndc) {
        var pk := PrimaryKey(ndc);
        nm := nm[pk := ndc];
      }
    }
    assert keys[..|keys|] == keys;
    AllLocated(configs, keys);
  }

  method SyncNdConfig(rows: seq<Row>) returns (nm: map<string, NdConfig>)
    ensures nm == Loaded(rows)
  {
    var configs := GetMockCfgFromDB(rows);
    ChosenKeyed(Candidates(rows));
    nm := Cache(configs);
  }

  // ----- which rows and endpoints are configured -----

  /** The configuration is what the row says for one of its endpoints, and the row passes the check. */
  ghost predicate MadeFrom(c: NdConfig, row: Row) {
    && row.metric != "" && row.dsType == "GAUGE" && row.step >= 1 && c.endpoint in row.endpoints
    && c.metric == row.metric && c.dsType == row.dsType && c.step == row.step && c.mock == row.mock
    && c.tags == ReadTags(row.tagText) && c.id == row.id && c.name == row.name && c.objType == row.objType
  }

  ghost predicate HasRow(c: NdConfig, rows: seq<Row>) {
    exists i :: 0 <= i < |rows| && MadeFrom(c, rows[i])
  }

  lemma ConfigsIff(row: Row, c: NdConfig)
    requires CheckMockCfg(row)
    ensures c in ConfigsOf(row, row.endpoints) <==> MadeFrom(c, row)
  {
    if MadeFrom(c, row) {
      var i :| 0 <= i < |row.endpoints| && row.endpoints[i] == c.endpoint;
      assert ConfigsOf(row, row.endpoints)[i] == c;
    }
  }

  /** Exactly the rows that pass the check make candidates, one for each endpoint. */
  lemma {:induction false} CandidatesIff(rows: seq<Row>, c: NdConfig)
    ensures c in Candidates(rows) <==> HasRow(c, rows)
  {
    if rows != [] {
      var init, row := rows[..|rows| - 1], rows[|rows| - 1];
      CandidatesIff(init, c);
      if CheckMockCfg(row) {
        ConfigsIff(row, c);
      }
      HasRowNext(init, row, c);
      assert rows == init + [row];
    }
  }

  lemma HasRowNext(init: seq<Row>, row: Row, c: NdConfig)
    ensures HasRow(c, init + [row]) <==> HasRow(c, init) || MadeFrom(c, row)
  {
    var rows := init + [row];
    if i :| 0 <= i < |init| && MadeFrom(c, init[i]) {
      assert rows[i] == init[i];
    }
    if MadeFrom(c, row) {
      assert rows[|init|] == row;
    }
  }

  /** Every configuration the judge can see has an endpoint, and the values of a row that passes the check. */
  lemma LoadedHasRow(rows: seq<Row>, k: string)
    requires k in Loaded(rows)
    ensures Loaded(rows)[k].endpoint != "" && HasRow(Loaded(rows)[k], rows)
  {
    var cs, c := Candidates(rows), Loaded(rows)[k];
    ChosenIsOwn(cs, BY_KEY, STAYS, k);
    OwnIff(cs, BY_KEY, k, c);
    CandidatesIff(rows, c);
  }

  lemma KeyStart(c: NdConfig)
    ensures KeyOf(c) != "" && KeyOf(c)[0] == if c.endpoint == "" then '/' else c.endpoint[0]
  {
  }

  /** The key of every endpoint of a row that passes the check is loaded; only an endpoint that begins with a slash can
      share its key with a configuration without an endpoint. */
  lemma RowIsLoaded(rows: seq<Row>, c: NdConfig)
    requires HasRow(c, rows) && c.endpoint != "" && c.endpoint[0] != '/'
    ensures KeyOf(c) in Loaded(rows)
  {
    var cs, k := Candidates(rows), KeyOf(c);
    CandidatesIff(rows, c);
    OwnIff(cs, BY_KEY, k, c);
    ChosenIsOwn(cs, BY_KEY, STAYS, k);
    var winner := Chosen(cs, BY_KEY, STAYS)[k];
    OwnIff(cs, BY_KEY, k, winner);
    KeyStart(c);
    KeyStart(winner);
  }

  /** In general a key is loaded exactly when its winning candidate has an endpoint. */
  lemma LoadedIff(rows: seq<Row>, k: string, n: int)
    requires IsWinner(Own(Candidates(rows), BY_KEY, k), n)
    ensures k in Loaded(rows) <==> Own(Candidates(rows), BY_KEY, k)[n].endpoint != ""
  {
    ChosenIsWinner(rows, k, n);
  }

  /** Every configuration the judge can see has passed the check. */
  lemma LoadedIsGuarded(rows: seq<Row>, k: string)
    requires k in Loaded(rows)
    ensures Guarded(Loaded(rows)[k]) && BY_KEY(Loaded(rows)[k]) == k
  {
    var cs, c := Candidates(rows), Loaded(rows)[k];
    ChosenIsOwn(cs, BY_KEY, STAYS, k);
    CandidatesGuarded(rows);
    OwnIff(cs, BY_KEY, k, c);
    var i :| 0 <= i < |cs| && cs[i] == c;
  }

  /** A host's configuration wins over a group's, wherever it comes. */
  lemma HostWins(rows: seq<Row>, k: string, c: NdConfig)
    requires k in Loaded(rows) && c in Candidates(rows) && BY_KEY(c) == k && IsHost(c)
    ensures !IsGroup(Loaded(rows)[k])
  {
    var cs := Candidates(rows);
    var own := Own(cs, BY_KEY, k);
    ChosenIsOwn(cs, BY_KEY, STAYS, k);
    WinningIsWinner(own);
    OwnIff(cs, BY_KEY, k, c);
    var i :| 0 <= i < |own| && own[i] == c;
    assert !NoHost(own, |own|);
  }
}
