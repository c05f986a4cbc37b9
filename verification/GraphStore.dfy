/** The graph module's cache of samples (modules/graph/store/store.go, linkedlist.go): a sharded array of
    maps from series keys to lists of samples, newest first. hashKey is a parameter. */
module GraphStore {
  import opened GraphItems
  import opened Options
  import opened Seqs

  /** The flag bits of a list: its file is on another node, a fetch failed, it is being sent, it is being fetched. */
  datatype Flags = Flags(miss: bool, err: bool, sending: bool, fetching: bool)

  const NO_FLAGS := Flags(false, false, false, false)

  /** What the store holds for one key: its samples, newest first, and its flag bits. */
  datatype Entry = Entry(items: seq<GraphItem>, flag: Flags)

  type Flat<K> = map<K, Entry>

  // ----- the operations on one flat map -----

  function FirstOf<K>(c: Flat<K>, key: K): Option<GraphItem> {
    if key in c && c[key].items != [] then Some(c[key].items[0]) else None
  }

  function BackOf<K>(c: Flat<K>, key: K): Option<GraphItem> {
    if key in c && c[key].items != [] then Some(c[key].items[|c[key].items| - 1]) else None
  }

  function CountOf<K>(c: Flat<K>, key: K): nat {
    if key in c then |c[key].items| else 0
  }

  /** A new key remembers whether its file has to come from another node. */
  function Pushed<K>(c: Flat<K>, key: K, item: GraphItem, missing: bool): Flat<K> {
    c[key := if key in c then Entry([item] + c[key].items, c[key].flag) else Entry([item], NO_FLAGS.(miss := missing))]
  }

  function Popped<K>(c: Flat<K>, key: K): Flat<K> {
    if key in c then c[key := Entry([], c[key].flag)] else c
  }

  function Restored<K>(c: Flat<K>, key: K, items: seq<GraphItem>): Flat<K> {
    if key in c then c[key := Entry(c[key].items + Reversed(items), c[key].flag)] else c
  }

  function Flagged<K>(c: Flat<K>, key: K, flag: Flags): Flat<K> {
    if key in c then c[key := Entry(c[key].items, flag)] else c
  }

  function Removed<K(==)>(c: Flat<K>, key: K): Flat<K> {
    map k | k in c && k != key :: c[k]
  }

  lemma IsUpdated<K>(c: Flat<K>, key: K, e: Entry, c': Flat<K>)
    requires forall k :: k in c' <==> k in c || k == key
    requires forall k :: k in c' ==> c'[k] == if k == key then e else c[k]
    ensures c' == c[key := e]
  {
  }

  lemma IsRemoved<K>(c: Flat<K>, key: K, c': Flat<K>)
    requires forall k :: k in c' <==> k in c && k != key
    requires forall k :: k in c' ==> c'[k] == c[k]
    ensures c' == Removed(c, key)
  {
  }

  /** The samples of a key, oldest first. */
  function Batch<K>(c: Flat<K>, key: K): seq<GraphItem> {
    if key in c then Reversed(c[key].items) else []
  }

  class SafeLinkedList {
    var Flag: Flags
    var L: seq<GraphItem>

    constructor (v: GraphItem, flag: Flags)
      ensures L == [v] && Flag == flag
    {
      L, Flag := [v], flag;
    }

    method PushFront(v: GraphItem)
      modifies this`L
      ensures L == [v] + old(L)
    {
      L := [v] + L;
    }

    method PopAll() returns (ret: seq<GraphItem>)
      modifies this`L
      ensures ret == Reversed(old(L)) && L == []
    {
      var size := |L|;
      ret := [];
      for i := 0 to size
        invariant L == old(L)[..size - i] && ret == Reversed(old(L))[..i]
      {
        ret := ret + [L[|L| - 1]];
        L := L[..|L| - 1];
      }
    }

    method PushAll(items: seq<GraphItem>)
      modifies this`L
      ensures L == old(L) + Reversed(items)
    {
      var size := |items|;
      var i := size - 1;
      while i >= 0
        invariant -1 <= i < size && L == old(L) + Reversed(items)[..size - 1 - i]
      {
        L := L + [items[i]];
        i := i - 1;
      }
    }

    method FetchAll() returns (ret: seq<GraphItem>, flag: Flags)
      ensures ret == Reversed(L) && flag == Flag
    {
      ret := [];
      var p := |L| - 1;
      while p >= 0
        invariant -1 <= p < |L| && ret == Reversed(L)[..|L| - 1 - p]
      {
        ret := ret + [L[p]];
        p := p - 1;
      }
      flag := Flag;
    }
  }

  class GraphItemMap<K(==,!new)> {
    const Hash: K -> nat
    const A: array<map<K, SafeLinkedList>>
    const Size: nat
    /** The one map that the shards together stand for. */
    ghost var Lists: map<K, SafeLinkedList>

    function Shard(key: K): (idx: nat)
      requires Size >= 1
      ensures idx < Size
    {
      Hash(key) % Size
    }

    /** Every key lives in its own shard and in no other. */
    ghost predicate Sharded()
      reads this, A
    {
      && A.Length == Size >= 1
      && (forall i, k :: 0 <= i < Size && k in A[i] ==> i == Shard(k) && k in Lists)
      && (forall k :: k in Lists ==> k in A[Shard(k)] && A[Shard(k)][k] == Lists[k])
    }

    ghost predicate Valid()
      reads this, A
    {
      Sharded() && forall k, k' :: k in Lists && k' in Lists && k != k' ==> Lists[k] != Lists[k']
    }

    ghost function Objects(): set<object>
      reads this
    {
      set k | k in Lists :: Lists[k]
    }

    ghost function Contents(): Flat<K>
      reads this, Objects()
    {
      map k | k in Lists :: Entry(Lists[k].L, Lists[k].Flag)
    }

    constructor (hash: K -> nat, size: nat)
      requires size >= 1
      ensures Valid() && Hash == hash && Size == size && Contents() == map[] && fresh(A)
    {
      Hash, Size, Lists := hash, size, map[];
      A := new map<K, SafeLinkedList>[size](_ => map[]);
    }

    method Get(key: K) returns (sl: SafeLinkedList?)
      requires Valid()
      ensures if key in Lists then sl == Lists[key] else sl == null
    {
      var idx := Shard(key);
      sl := if key in A[idx] then A[idx][key] else null;
    }

    method First(key: K) returns (item: Option<GraphItem>)
      requires Valid()
      ensures item == FirstOf(Contents(), key)
    {
      var sl := Get(key);
      item := if sl == null || sl.L == [] then None else Some(sl.L[0]);
    }

    method Back(key: K) returns (item: Option<GraphItem>)
      requires Valid()
      ensures item == BackOf(Contents(), key)
    {
      var sl := Get(key);
      item := if sl == null || sl.L == [] then None else Some(sl.L[|sl.L| - 1]);
    }

    method ItemCnt(key: K) returns (count: nat)
      requires Valid()
      ensures count == CountOf(Contents(), key)
    {
      var sl := Get(key);
      count := if sl == null then 0 else |sl.L|;
    }

    method GetFlag(key: K) returns (flag: Option<Flags>)
      requires Valid()
      ensures flag == if key in Contents() then Some(Contents()[key].flag) else None
    {
      var sl := Get(key);
      flag := if sl == null then None else Some(sl.Flag);
    }

    method FetchAll(key: K) returns (items: seq<GraphItem>, flag: Flags)
      requires Valid()
      ensures items == Batch(Contents(), key) && flag == if key in Contents() then Contents()[key].flag else NO_FLAGS
    {
      var sl := Get(key);
      if sl == null {
        return [], NO_FLAGS;
      }
      items, flag := sl.FetchAll();
    }

    method SetFlag(key: K, flag: Flags) returns (ok: bool)
      requires Valid()
      modifies Objects()
      ensures Valid() && Lists == old(Lists)
      ensures ok == (key in old(Contents())) && Contents() == Flagged(old(Contents()), key, flag)
    {
      var sl := Get(key);
      if sl == null {
        return false;
      }
      ghost var before := Contents();
      sl.Flag := flag;
      IsUpdated(before, key, Entry(sl.L, flag), Contents());
      return true;
    }

    method PopAll(key: K) returns (items: seq<GraphItem>)
      requires Valid()
      modifies Objects()
      ensures Valid() && Lists == old(Lists)
      ensures items == Batch(old(Contents()), key) && Contents() == Popped(old(Contents()), key)
    {
      var sl := Get(key);
      if sl == null {
        return [];
      }
      ghost var before := Contents();
      items := sl.PopAll();
      IsUpdated(before, key, Entry([], sl.Flag), Contents());
    }

    method PushAll(key: K, items: seq<GraphItem>) returns (ok: bool)
      requires Valid()
      modifies Objects()
      ensures Valid() && Lists == old(Lists)
      ensures ok == (key in old(Contents())) && Contents() == Restored(old(Contents()), key, items)
    {
      var sl := Get(key);
      if sl == null {
        return false;
      }
      ghost var before := Contents();
      sl.PushAll(items);
      IsUpdated(before, key, Entry(sl.L, sl.Flag), Contents());
      return true;
    }

    method PushFront(key: K, item: GraphItem, missing: bool)
      requires Valid()
      modifies this`Lists, A, Objects()
      ensures Valid() && fresh(Objects() - old(Objects()))
      ensures Contents() == Pushed(old(Contents()), key, item, missing)
    {
      var sl := Get(key);
      if sl != null {
        ghost var before := Contents();
        sl.PushFront(item);
        IsUpdated(before, key, Entry(sl.L, sl.Flag), Contents());
      } else {
        PushNew(key, item, missing);
      }
    }

    method PushNew(key: K, item: GraphItem, missing: bool)
      requires Valid() && key !in Lists
      modifies this`Lists, A
      ensures Valid() && fresh(Objects() - old(Objects()))
      ensures Contents() == Pushed(old(Contents()), key, item, missing)
    {
      var safeList := new SafeLinkedList(item, NO_FLAGS.(miss := missing));
      ghost var before := Contents();
      Set(key, safeList);
      IsUpdated(before, key, Entry(safeList.L, safeList.Flag), Contents());
    }

    /** Puts a list of its own under a key, in place of the one that was there. */
    method Set(key: K, sl: SafeLinkedList)
      requires Valid() && forall k :: k in Lists && k != key ==> Lists[k] != sl
      modifies this`Lists, A
      ensures Valid() && Lists == old(Lists)[key := sl]
    {
      var idx := Shard(key);
      A[idx] := A[idx][key := sl];
      Lists := Lists[key := sl];
    }

    method Remove(key: K) returns (existed: bool)
      requires Valid()
      modifies this`Lists, A
      ensures Valid()
      ensures existed == (key in old(Contents())) && Contents() == Removed(old(Contents()), key)
    {
      ghost var before := Contents();
      var sl := Get(key);
      existed := sl != null;
      if existed {
        Unset(key);
      }
      IsRemoved(before, key, Contents());
    }

    method Unset(key: K)
      requires Valid() && key in Lists
      modifies this`Lists, A
      ensures Valid() && forall k :: k in Lists <==> k in old(Lists) && k != key
      ensures forall k :: k in Lists ==> Lists[k] == old(Lists)[k]
    {
      var idx := Shard(key);
      A[idx] := A[idx] - {key};
      Lists := map k | k in Lists && k != key :: Lists[k];
    }

    /** The keys of the shards below `n`. */
    ghost function KeysBelow(n: nat): set<K>
      requires Size >= 1
      reads this
    {
      set k | k in Lists && Shard(k) < n
    }

    lemma KeysBelowNext(i: nat)
      requires Valid() && i < Size
      ensures |KeysBelow(i + 1)| == |KeysBelow(i)| + |A[i]|
    {
      assert KeysBelow(i + 1) == KeysBelow(i) + A[i].Keys;
      assert KeysBelow(i) !! A[i].Keys;
    }

    method Len() returns (l: nat)
      requires Valid()
      ensures l == |Contents()|
    {
      l := 0;
      for i := 0 to Size
        invariant l == |KeysBelow(i)|
      {
        KeysBelowNext(i);
        l := l + |A[i]|;
      }
      assert KeysBelow(Size) == Contents().Keys;
    }

    /** The lists over all indices partition the keys: each key is in the list of its shard, once. */
    method KeysByIndex(idx: nat) returns (keys: seq<K>)
      requires Valid() && idx < Size
      ensures forall k :: k in keys <==> k in Contents() && Shard(k) == idx
      ensures forall i, j :: 0 <= i < j < |keys| ==> keys[i] != keys[j]
    {
      keys := KeysOf(A[idx]);
    }
  }

  // ----- what PushAll restores -----

  /** Putting back what was just taken restores the list exactly. */
  lemma PopPushRestores<K>(c: Flat<K>, key: K)
    ensures Restored(Popped(c, key), key, Batch(c, key)) == c
  {
    if key in c {
      ReversedTwice(c[key].items);
      assert [] + c[key].items == c[key].items;
    }
  }

  /** Restoring keeps the list in order exactly when what it already holds is newer than what is put back. */
  lemma RestoreOrderIff(l: seq<GraphItem>, items: seq<GraphItem>)
    requires Decreasing(l) && Increasing(items)
    ensures Decreasing(l + Reversed(items)) <==> l == [] || items == [] || items[|items| - 1].ts < l[|l| - 1].ts
  {
    var r := l + Reversed(items);
    if l != [] && items != [] && Decreasing(r) {
      assert r[|l| - 1] == l[|l| - 1] && r[|l|] == items[|items| - 1];
    }
  }
}
