/** The last values of the counters an aggregator asks for (modules/aggregator/cron/query.go): they are kept under host
    and counter run together. What the interface answers is an argument. */
module CounterValues {
  import opened Options

  datatype Response = Response(endpoint: string, counter: string, ts: int, value: real)

  predicate InTime(r: Response, begin: int, end: int) {
    begin <= r.ts <= end
  }

  function Get<K(==), V>(m: map<K, V>, k: K): Option<V> {
    if k in m then Some(m[k]) else None
  }

  /** The values in time, each under its key; a later one replaces an earlier one. */
  ghost function Collected<K>(resp: seq<Response>, key: Response -> K, begin: int, end: int): map<K, real> {
    if resp == [] then map[]
    else
      var before, r := Collected(resp[..|resp| - 1], key, begin, end), resp[|resp| - 1];
      if InTime(r, begin, end) then before[key(r) := r.value] else before
  }

  /** The key of the source. */
  ghost const TEXT: Response -> string := (r: Response) => r.endpoint + r.counter

  /** The host and the counter themselves. */
  ghost const PAIR: Response -> (string, string) := (r: Response) => (r.endpoint, r.counter)

  /** The values under the key of the source. */
  ghost function ByText(resp: seq<Response>, begin: int, end: int): map<string, real> {
    Collected(resp, TEXT, begin, end)
  }

  /** The values as they came. */
  ghost function ByPair(resp: seq<Response>, begin: int, end: int): map<(string, string), real> {
    Collected(resp, PAIR, begin, end)
  }

  method QueryCounterLast(resp: seq<Response>, begin: int, end: int) returns (ret: map<string, real>)
    ensures ret == ByText(resp, begin, end)
  {
    ret := map[];
    for i := 0 to |resp|
      invariant ret == Collected(resp[..i], TEXT, begin, end)
    {
      assert resp[..i + 1][..i] == resp[..i];
      var v := resp[i];
      if v.ts < begin || v.ts > end {
        continue;
      }
      ret := ret[v.endpoint + v.counter := v.value];
    }
    assert resp[..|resp|] == resp;
  }

  /** Two ways of keying give the same value under two keys that the same responses go to. */
  lemma {:induction false} CollectedAgree<K, L>(resp: seq<Response>, key: Response -> K, key': Response -> L,
                                                begin: int, end: int, k: K, k': L)
    requires forall i :: 0 <= i < |resp| ==> (key(resp[i]) == k <==> key'(resp[i]) == k')
    ensures Get(Collected(resp, key, begin, end), k) == Get(Collected(resp, key', begin, end), k')
  {
    if resp != [] {
      CollectedAgree(resp[..|resp| - 1], key, key', begin, end, k, k');
    }
  }

  /** A key has the value of the last response in time that goes to it, and none without one. */
  ghost predicate LastInTime<K>(resp: seq<Response>, key: Response -> K, begin: int, end: int, k: K, i: int) {
    && 0 <= i < |resp| && key(resp[i]) == k && begin <= resp[i].ts <= end
    && forall j :: i < j < |resp| && key(resp[j]) == k ==> !(begin <= resp[j].ts <= end)
  }

  lemma {:induction false} CollectedIff<K>(resp: seq<Response>, key: Response -> K, begin: int, end: int, k: K,
                                           value: real)
    ensures Get(Collected(resp, key, begin, end), k) == Some(value) <==>
            exists i :: LastInTime(resp, key, begin, end, k, i) && resp[i].value == value
  {
    if resp != [] {
      var init, n := resp[..|resp| - 1], |resp| - 1;
      CollectedIff(init, key, begin, end, k, value);
      if key(resp[n]) == k && InTime(resp[n], begin, end) {
        assert LastInTime(resp, key, begin, end, k, n);
      } else {
        forall i ensures LastInTime(resp, key, begin, end, k, i) <==> LastInTime(init, key, begin, end, k, i) {
          LastInTimeInit(resp, key, begin, end, k, i);
        }
      }
    }
  }

  lemma LastInTimeInit<K>(resp: seq<Response>, key: Response -> K, begin: int, end: int, k: K, i: int)
    requires resp != [] && !(key(resp[|resp| - 1]) == k && InTime(resp[|resp| - 1], begin, end))
    ensures LastInTime(resp, key, begin, end, k, i) <==> LastInTime(resp[..|resp| - 1], key, begin, end, k, i)
  {
    var init := resp[..|resp| - 1];
    assert forall j :: 0 <= j < |init| ==> init[j] == resp[j];
  }

  /** Every response is for a host and a counter that were asked for. */
  ghost predicate Asked(resp: seq<Response>, hosts: seq<string>, counters: seq<string>) {
    forall i :: 0 <= i < |resp| ==> resp[i].endpoint in hosts && resp[i].counter in counters
  }

  /** For every host and counter asked for, what is found under the text is what came for the pair. */
  ghost predicate LookupsRight(resp: seq<Response>, hosts: seq<string>, counters: seq<string>, begin: int, end: int) {
    forall h, c :: h in hosts && c in counters ==>
      Get(ByText(resp, begin, end), h + c) == Get(ByPair(resp, begin, end), (h, c))
  }

  /** No two hosts and counters run together to the same text. */
  ghost predicate Separable(hosts: seq<string>, counters: seq<string>) {
    forall h, c, h', c' :: h in hosts && c in counters && h' in hosts && c' in counters && h + c == h' + c' ==>
      h == h' && c == c'
  }

  lemma SeparableIsRight(resp: seq<Response>, hosts: seq<string>, counters: seq<string>, begin: int, end: int)
    requires Separable(hosts, counters) && Asked(resp, hosts, counters)
    ensures LookupsRight(resp, hosts, counters, begin, end)
  {
    forall h, c | h in hosts && c in counters
      ensures Get(ByText(resp, begin, end), h + c) == Get(ByPair(resp, begin, end), (h, c))
    {
      CollectedAgree(resp, TEXT, PAIR, begin, end, h + c, (h, c));
    }
  }

  lemma OneCollected<K>(r: Response, key: Response -> K, begin: int, end: int)
    requires InTime(r, begin, end)
    ensures Collected([r], key, begin, end) == map[key(r) := r.value]
  {
    assert [r][..0] == [];
  }

  /** A value of one host is found for another one. */
  lemma MixedUp(h: string, c: string, h': string, c': string, begin: int, end: int, value: real)
    requires h + c == h' + c' && (h, c) != (h', c') && begin <= end
    ensures var resp := [Response(h, c, end, value)];
            && Get(ByText(resp, begin, end), h' + c') == Some(value)
            && Get(ByPair(resp, begin, end), (h', c')) == None
  {
    OneCollected(Response(h, c, end, value), TEXT, begin, end);
    OneCollected(Response(h, c, end, value), PAIR, begin, end);
  }

  /** The lookups are right for every response if and only if no two asked pairs run together to the same text. */
  lemma LookupsRightIff(hosts: seq<string>, counters: seq<string>, begin: int, end: int)
    requires begin <= end
    ensures Separable(hosts, counters) <==>
            forall resp :: Asked(resp, hosts, counters) ==> LookupsRight(resp, hosts, counters, begin, end)
  {
    if Separable(hosts, counters) {
      forall resp | Asked(resp, hosts, counters) ensures LookupsRight(resp, hosts, counters, begin, end) {
        SeparableIsRight(resp, hosts, counters, begin, end);
      }
    } else {
      var h, c, h', c' :| h in hosts && c in counters && h' in hosts && c' in counters && h + c == h' + c'
                          && !(h == h' && c == c');
      MixedUp(h, c, h', c', begin, end, 0.0);
      assert Asked([Response(h, c, end, 0.0)], hosts, counters);
      assert !LookupsRight([Response(h, c, end, 0.0)], hosts, counters, begin, end);
    }
  }
}
