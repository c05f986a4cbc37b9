/** Sequence and map helpers shared by the models. */
module Seqs {

  function Reversed<T>(s: seq<T>): (r: seq<T>)
    ensures |r| == |s| && forall i :: 0 <= i < |s| ==> r[i] == s[|s| - 1 - i]
  {
    seq(|s|, i requires 0 <= i < |s| => s[|s| - 1 - i])
  }

  lemma ReversedTwice<T>(s: seq<T>)
    ensures Reversed(Reversed(s)) == s
  {
  }

  lemma {:induction false} ReversedMultiset<T>(s: seq<T>)
    ensures multiset(Reversed(s)) == multiset(s)
  {
    if s != [] {
      var init, last := s[..|s| - 1], s[|s| - 1];
      ReversedMultiset(init);
      assert Reversed(s) == [last] + Reversed(init);
      assert s == init + [last];
    }
  }

  function Take<T>(s: seq<T>, n: nat): seq<T> {
    if |s| <= n then s else s[..n]
  }

  /** Pushing in front of a reversed sequence and cutting, in either order of cutting. */
  lemma TakePushed<T>(s: seq<T>, x: T, n: nat)
    requires n >= 1
    ensures Take([x] + Take(Reversed(s), n), n) == Take(Reversed(s + [x]), n)
  {
    assert Reversed(s + [x]) == [x] + Reversed(s);
  }

  /** The list under a key, empty when the key is absent. */
  function Under<K, V>(m: map<K, seq<V>>, k: K): seq<V> {
    if k in m then m[k] else []
  }

  /** Appends to the list under a key, making it when it is absent. */
  method AppendUnder<K(==,!new), V(!new)>(before: map<K, seq<V>>, key: K, x: V) returns (m: map<K, seq<V>>)
    ensures m == before[key := Under(before, key) + [x]]
    ensures forall k :: Under(m, k) == if k == key then Under(before, k) + [x] else Under(before, k)
    ensures forall k, y :: y in Under(m, k) <==> y in Under(before, k) || (k == key && y == x)
  {
    if key in before {
      m := before[key := before[key] + [x]];
    } else {
      assert [] + [x] == [x];
      m := before[key := [x]];
    }
  }

  /** The keys of a map in an arbitrary order, as Go's range over a map gives them. */
  method KeysOf<K(==), V>(m: map<K, V>) returns (keys: seq<K>)
    ensures forall k :: k in keys <==> k in m
    ensures forall i, j :: 0 <= i < j < |keys| ==> keys[i] != keys[j]
  {
    keys := [];
    var rest := m.Keys;
    while rest != {}
      invariant rest <= m.Keys
      invariant forall k :: k in keys <==> k in m && k !in rest
      invariant forall i, j :: 0 <= i < j < |keys| ==> keys[i] != keys[j]
      decreases |rest|
    {
      var k :| k in rest;
      rest := rest - {k};
      keys := keys + [k];
    }
  }

  /** Copies one map over another, key by key. */
  method CopyOver<K(==), V>(base: map<K, V>, over: map<K, V>) returns (m: map<K, V>)
    ensures m == base + over
  {
    m := base;
    var rest := over.Keys;
    while rest != {}
      invariant rest <= over.Keys
      invariant forall k :: k in m <==> k in base || (k in over && k !in rest)
      invariant forall k :: k in m ==> m[k] == if k in over && k !in rest then over[k] else base[k]
      decreases |rest|
    {
      var k :| k in rest;
      rest := rest - {k};
      m := m[k := over[k]];
    }
  }

  /** The elements with a given key, in order. */
  function Own<S, K(==)>(ss: seq<S>, key: S -> K, k: K): seq<S> {
    if ss == [] then []
    else
      var rest, s := Own(ss[..|ss| - 1], key, k), ss[|ss| - 1];
      if key(s) == k then rest + [s] else rest
  }

  lemma {:induction false} OwnIff<S, K>(ss: seq<S>, key: S -> K, k: K, s: S)
    ensures s in Own(ss, key, k) <==> s in ss && key(s) == k
  {
    if ss != [] {
      OwnIff(ss[..|ss| - 1], key, k, s);
      assert s in ss <==> s in ss[..|ss| - 1] || s == ss[|ss| - 1];
    }
  }

  lemma OwnNext<S, K>(ss: seq<S>, key: S -> K, s: S, k: K)
    ensures Own(ss + [s], key, k) == if key(s) == k then Own(ss, key, k) + [s] else Own(ss, key, k)
  {
    assert (ss + [s])[..|ss|] == ss;
  }

  /** Appends each element to the list under its key. */
  method AppendAll<S(!new), K(==,!new)>(before: map<K, seq<S>>, ss: seq<S>, key: S -> K) returns (m: map<K, seq<S>>)
    ensures forall k :: Under(m, k) == Under(before, k) + Own(ss, key, k)
  {
    m := before;
    for n := 0 to |ss|
      invariant forall k :: Under(m, k) == Under(before, k) + Own(ss[..n], key, k)
    {
      ghost var m0 := m;
      m := AppendUnder(m, key(ss[n]), ss[n]);
      assert ss[..n + 1] == ss[..n] + [ss[n]];
      forall k ensures Under(m, k) == Under(before, k) + Own(ss[..n + 1], key, k) {
        OwnNext(ss[..n], key, ss[n], k);
        assert Under(m0, k) == Under(before, k) + Own(ss[..n], key, k);
      }
    }
    assert ss[..|ss|] == ss;
  }

  /** The elements that satisfy `p`, in order. */
  function Filter<T>(s: seq<T>, p: T -> bool): seq<T> {
    if s == [] then []
    else
      var rest, x := Filter(s[..|s| - 1], p), s[|s| - 1];
      if p(x) then rest + [x] else rest
  }

  /** Their places. */
  function PlacesOf<T>(s: seq<T>, p: T -> bool): seq<int> {
    if s == [] then []
    else
      var rest, last := PlacesOf(s[..|s| - 1], p), |s| - 1;
      if p(s[last]) then rest + [last] else rest
  }

  /** `r` is what `s` has at increasing places. */
  ghost predicate Selects<T>(at: seq<int>, s: seq<T>, r: seq<T>) {
    && |at| == |r|
    && (forall n :: 0 <= n < |at| ==> 0 <= at[n] < |s| && r[n] == s[at[n]])
    && (forall n, m :: 0 <= n < m < |at| ==> at[n] < at[m])
  }

  /** `at` has every place that satisfies `p`, and no other. */
  ghost predicate Covers<T>(at: seq<int>, s: seq<T>, p: T -> bool) {
    forall i :: 0 <= i < |s| ==> (i in at <==> p(s[i]))
  }

  lemma {:induction false} FilterSelects<T>(s: seq<T>, p: T -> bool)
    ensures Selects(PlacesOf(s, p), s, Filter(s, p))
  {
    if s != [] {
      FilterSelects(s[..|s| - 1], p);
    }
  }

  lemma {:induction false} FilterCovers<T>(s: seq<T>, p: T -> bool)
    ensures forall i :: i in PlacesOf(s, p) ==> 0 <= i < |s|
    ensures Covers(PlacesOf(s, p), s, p)
  {
    if s != [] {
      var init, last := s[..|s| - 1], |s| - 1;
      FilterCovers(init, p);
      forall i | 0 <= i < |s| ensures i in PlacesOf(s, p) <==> p(s[i]) {
        if i < last {
          assert init[i] == s[i];
        }
      }
    }
  }

  lemma {:induction false} FilterAppend<T>(a: seq<T>, b: seq<T>, p: T -> bool)
    ensures Filter(a + b, p) == Filter(a, p) + Filter(b, p)
  {
    if b == [] {
      assert a + b == a;
    } else {
      assert (a + b)[..|a + b| - 1] == a + b[..|b| - 1];
      FilterAppend(a, b[..|b| - 1], p);
    }
  }

  lemma FilterNext<T>(s: seq<T>, x: T, p: T -> bool)
    ensures Filter(s + [x], p) == if p(x) then Filter(s, p) + [x] else Filter(s, p)
  {
    assert (s + [x])[..|s|] == s;
  }
}
