/**
 The part of the lru-cache package that the response cache uses (src/cache/cache-store.ts:35-58): a
 count bound, a byte bound, and a dispose callback. The callback runs synchronously; each operation
 returns the disposed slots in the order of the calls.
 */
module LruCache {
  import opened Wrappers
  import opened Sequences

  datatype Slot<K, V> = Slot(key: K, value: V)

  /** `recency` runs from the least to the most recently used key. */
  datatype Lru<K, V> = Lru(recency: seq<K>, items: map<K, V>, sizes: map<K, nat>, total: int)

  function Minus<K(==)>(order: seq<K>, gone: set<K>): seq<K> {
    if order == [] then []
    else (if order[0] in gone then [] else [order[0]]) + Minus(order[1..], gone)
  }

  function Total<K>(order: seq<K>, sizes: map<K, nat>): nat
    requires forall k :: k in order ==> k in sizes
  {
    if order == [] then 0 else sizes[order[0]] + Total(order[1..], sizes)
  }

  ghost predicate Consistent<K(!new), V>(l: Lru<K, V>) {
    && Distinct(l.recency)
    && (forall k :: k in l.recency <==> k in l.items)
    && (forall k :: k in l.items <==> k in l.sizes)
    && l.total == Total(l.recency, l.sizes)
  }

  function Touched<K(==), V>(l: Lru<K, V>, key: K): Lru<K, V> {
    l.(recency := Minus(l.recency, {key}) + [key])
  }

  function Removed<K(==), V>(l: Lru<K, V>, key: K): Lru<K, V>
    requires key in l.sizes
  {
    Lru(Minus(l.recency, {key}), l.items - {key}, l.sizes - {key}, l.total - l.sizes[key])
  }

  // ---------------------------------------------------------------------------------------------
  // Order

  lemma {:induction false} MinusMembers<K>(order: seq<K>, gone: set<K>)
    requires Distinct(order)
    ensures Distinct(Minus(order, gone))
    ensures forall k :: k in Minus(order, gone) <==> k in order && k !in gone
  {
    if order != [] {
      DistinctDrop(order, 1);
      MinusMembers(order[1..], gone);
      assert order == order[..1] + order[1..];
      var rest := Minus(order[1..], gone);
      hide Minus;
      if order[0] !in gone {
        assert Distinct([order[0]] + rest) by { DistinctCons(order[0], rest); }
      }
      MinusUnfold(order, gone);
    }
  }

  lemma MinusUnfold<K>(order: seq<K>, gone: set<K>)
    requires order != []
    ensures var rest := Minus(order[1..], gone);
            Minus(order, gone) == if order[0] in gone then rest else [order[0]] + rest
  {
    assert [] + Minus(order[1..], gone) == Minus(order[1..], gone);
  }

  lemma {:induction false} MinusNothing<K>(order: seq<K>, gone: set<K>)
    requires forall k :: k in order ==> k !in gone
    ensures Minus(order, gone) == order
  {
    if order != [] {
      MinusNothing(order[1..], gone);
      assert order == [order[0]] + order[1..];
    }
  }

  lemma {:induction false} MinusTwice<K>(order: seq<K>, a: set<K>, b: set<K>)
    ensures Minus(Minus(order, a), b) == Minus(order, a + b)
  {
    if order != [] {
      MinusTwice(order[1..], a, b);
      MinusUnfold(order, a);
      MinusUnfold(order, a + b);
      if order[0] !in a { MinusUnfold([order[0]] + Minus(order[1..], a), b); }
      hide Minus;
      assert ([order[0]] + Minus(order[1..], a))[1..] == Minus(order[1..], a);
    }
  }

  lemma {:induction false} MinusSnoc<K>(order: seq<K>, k: K, gone: set<K>)
    ensures Minus(order + [k], gone) == Minus(order, gone) + (if k in gone then [] else [k])
  {
    if order == [] {
      assert [] + [k] == [k];
    } else {
      assert (order + [k])[1..] == order[1..] + [k];
      MinusSnoc(order[1..], k, gone);
      MinusUnfold(order + [k], gone);
      MinusUnfold(order, gone);
      hide Minus;
    }
  }

  lemma MinusHead<K>(order: seq<K>)
    requires order != [] && Distinct(order)
    ensures Minus(order, {order[0]}) == order[1..]
  {
    MinusNothing(order[1..], {order[0]});
    MinusUnfold(order, {order[0]});
  }

  // ---------------------------------------------------------------------------------------------
  // Sizes

  lemma {:induction false} TotalSameSizes<K>(order: seq<K>, a: map<K, nat>, b: map<K, nat>)
    requires forall k :: k in order ==> k in a && k in b && a[k] == b[k]
    ensures Total(order, a) == Total(order, b)
  {
    if order != [] { TotalSameSizes(order[1..], a, b); }
  }

  lemma {:induction false} TotalSnoc<K>(order: seq<K>, k: K, sizes: map<K, nat>)
    requires k in sizes && forall j :: j in order ==> j in sizes
    ensures Total(order + [k], sizes) == Total(order, sizes) + sizes[k]
  {
    if order == [] {
      assert [] + [k] == [k];
    } else {
      assert (order + [k])[1..] == order[1..] + [k];
      TotalSnoc(order[1..], k, sizes);
    }
  }

  lemma {:induction false} TotalMinus<K>(order: seq<K>, key: K, sizes: map<K, nat>)
    requires Distinct(order) && key in order && forall k :: k in order ==> k in sizes
    ensures forall k :: k in Minus(order, {key}) ==> k in sizes
    ensures Total(order, sizes) == Total(Minus(order, {key}), sizes) + sizes[key]
  {
    MinusMembers(order, {key});
    if order[0] == key {
      MinusHead(order);
    } else {
      DistinctDrop(order, 1);
      assert order == order[..1] + order[1..];
      MinusUnfold(order, {key});
      TotalMinus(order[1..], key, sizes);
    }
  }

  lemma {:induction false} TotalBounded<K>(order: seq<K>, sizes: map<K, nat>, most: nat)
    requires forall k :: k in order ==> k in sizes && sizes[k] <= most
    ensures Total(order, sizes) <= |order| * most
  {
    if order != [] {
      TotalBounded(order[1..], sizes, most);
      assert |order| * most == |order[1..]| * most + most;
    }
  }

  lemma RemovedConsistent<K(!new), V>(l: Lru<K, V>, key: K)
    requires Consistent(l) && key in l.items
    ensures Consistent(Removed(l, key))
    ensures |Removed(l, key).recency| == |l.recency| - 1
  {
    var r := Removed(l, key);
    MinusMembers(l.recency, {key});
    TotalMinus(l.recency, key, l.sizes);
    TotalSameSizes(r.recency, l.sizes, r.sizes);
    MinusOneShorter(l.recency, key);
    hide Minus, Total, Distinct, Removed;
    SubtractedConsistent(l, r, key);
  }

  lemma SubtractedConsistent<K(!new), V>(l: Lru<K, V>, r: Lru<K, V>, key: K)
    requires Consistent(l) && key in l.items && Distinct(r.recency)
    requires forall k :: k in r.recency <==> k in l.recency && k != key
    requires r.items == l.items - {key} && r.sizes == l.sizes - {key}
    requires forall k :: k in r.recency ==> k in r.sizes
    requires r.total == Total(r.recency, r.sizes)
    ensures Consistent(r)
  {
    hide Total, Distinct;
  }

  lemma {:induction false} MinusOneShorter<K>(order: seq<K>, key: K)
    requires Distinct(order) && key in order
    ensures |Minus(order, {key})| == |order| - 1
  {
    if order[0] == key {
      MinusHead(order);
    } else {
      DistinctDrop(order, 1);
      assert order == order[..1] + order[1..];
      MinusOneShorter(order[1..], key);
    }
  }

  lemma TouchedConsistent<K(!new), V>(l: Lru<K, V>, key: K)
    requires Consistent(l) && key in l.items
    ensures Consistent(Touched(l, key)) && |Touched(l, key).recency| == |l.recency|
  {
    MinusMembers(l.recency, {key});
    DistinctSnoc(Minus(l.recency, {key}), key);
    TotalMinus(l.recency, key, l.sizes);
    MinusOneShorter(l.recency, key);
    TotalSnoc(Minus(l.recency, {key}), key, l.sizes);
    hide Minus, Total, Distinct, Touched;
    ReorderedConsistent(l, Touched(l, key), Minus(l.recency, {key}), key);
  }

  lemma ReorderedConsistent<K(!new), V>(l: Lru<K, V>, r: Lru<K, V>, rest: seq<K>, key: K)
    requires Consistent(l) && key in l.items && r == l.(recency := rest + [key]) && Distinct(r.recency)
    requires forall k :: k in rest <==> k in l.recency && k != key
    requires (forall k :: k in r.recency ==> k in l.sizes) && Total(r.recency, l.sizes) == Total(l.recency, l.sizes)
    ensures Consistent(r)
  {
    hide Total, Distinct;
  }

  lemma UnlinkedIs<K(!new), V>(l: Lru<K, V>, key: K)
    requires Consistent(l) && key in l.items
    ensures key in l.sizes
    ensures Removed(l, key) == Lru(Minus(l.recency, {key}), l.items - {key}, l.sizes - {key}, l.total - l.sizes[key])
  {
    hide Minus;
  }

  // ---------------------------------------------------------------------------------------------
  // Eviction and insertion

  function Head<K(==), V>(l: Lru<K, V>): Slot<K, V>
    requires l.recency != [] && l.recency[0] in l.items
  {
    Slot(l.recency[0], l.items[l.recency[0]])
  }

  datatype Effect<K, V> = Effect(lru: Lru<K, V>, disposed: seq<Slot<K, V>>)

  /** Evicts least recently used slots while the total size is over `limit`. */
  ghost function EvictUntil<K(!new), V>(l: Lru<K, V>, limit: int): Effect<K, V>
    requires Consistent(l)
    decreases |l.recency|
  {
    if l.recency == [] || l.total <= limit then Effect(l, [])
    else
      RemovedConsistent(l, l.recency[0]);
      var rest := EvictUntil(Removed(l, l.recency[0]), limit);
      Effect(rest.lru, [Head(l)] + rest.disposed)
  }

  lemma EvictOne<K(!new), V>(l: Lru<K, V>, limit: int)
    requires Consistent(l) && l.recency != [] && l.total > limit
    ensures l.recency[0] in l.items && l.recency[0] in l.sizes
    ensures var r := Removed(l, l.recency[0]);
            && Consistent(r) && |r.recency| < |l.recency|
            && var rest := EvictUntil(r, limit);
               EvictUntil(l, limit) == Effect(rest.lru, [Slot(l.recency[0], l.items[l.recency[0]])] + rest.disposed)
  {
    RemovedConsistent(l, l.recency[0]);
    hide Total, Minus, Distinct;
  }

  function Added<K(==), V>(l: Lru<K, V>, key: K, value: V, size: nat): Lru<K, V> {
    Lru(l.recency + [key], l.items[key := value], l.sizes[key := size], l.total + size)
  }

  lemma AddedConsistent<K(!new), V>(l: Lru<K, V>, key: K, value: V, size: nat)
    requires Consistent(l) && key !in l.items
    ensures Consistent(Added(l, key, value, size))
  {
    var r := Added(l, key, value, size);
    DistinctSnoc(l.recency, key);
    TotalSameSizes(l.recency, l.sizes, r.sizes);
    TotalSnoc(l.recency, key, r.sizes);
    hide Total, Distinct;
  }

  ghost predicate Fits<K(!new), V>(l: Lru<K, V>, max: nat, sizeCap: nat) {
    && |l.recency| <= max
    && forall k :: k in l.sizes ==> l.sizes[k] <= sizeCap
  }

  /** What is left when `key` is about to be stored: its old slot goes, or the oldest one of a full cache. */
  function Room<K(==), V>(l: Lru<K, V>, max: nat, key: K): Lru<K, V>
    requires key in l.items ==> key in l.sizes
    requires l.recency != [] ==> l.recency[0] in l.sizes
  {
    if key in l.items then Removed(l, key)
    else if |l.recency| >= max && l.recency != [] then Removed(l, l.recency[0])
    else l
  }

  function DisposedBySet<K(==), V>(l: Lru<K, V>, max: nat, key: K): seq<Slot<K, V>>
    requires l.recency != [] ==> l.recency[0] in l.items
  {
    if key in l.items then [Slot(key, l.items[key])]
    else if |l.recency| >= max && l.recency != [] then [Head(l)]
    else []
  }

  lemma RoomConsistent<K(!new), V>(l: Lru<K, V>, max: nat, key: K, sizeCap: nat)
    requires Consistent(l) && Fits(l, max, sizeCap) && max >= 1
    ensures l.recency != [] ==> l.recency[0] in l.items
    ensures var r := Room(l, max, key); Consistent(r) && Fits(r, max - 1, sizeCap) && key !in r.items
  {
    if key in l.items {
      RemovedConsistent(l, key);
    } else if |l.recency| >= max {
      assert l.recency[0] in l.items;
      RemovedConsistent(l, l.recency[0]);
    }
    hide Minus, Total, Distinct;
  }

  /** The byte bound of `max` times the largest size never evicts anything. */
  lemma ByteBoundNeverEvicts<K(!new), V>(l: Lru<K, V>, max: nat, key: K, size: nat, sizeCap: nat)
    requires Consistent(l) && Fits(l, max, sizeCap) && max >= 1 && size <= sizeCap
    ensures l.recency != [] ==> l.recency[0] in l.items
    ensures var room := Room(l, max, key);
            && Consistent(room)
            && EvictUntil(room, max * sizeCap - size) == Effect(room, [])
            && room.total + size <= max * sizeCap
  {
    RoomConsistent(l, max, key, sizeCap);
    var room := Room(l, max, key);
    TotalBounded(room.recency, room.sizes, sizeCap);
    hide Total, Minus, Removed, Room;
    RoomForOne(|room.recency|, max, size, sizeCap, room.total);
  }

  lemma RoomForOne(n: nat, max: nat, size: nat, sizeCap: nat, total: int)
    requires n <= max - 1 && size <= sizeCap && total <= n * sizeCap
    ensures total <= max * sizeCap - size
  {
    var spare := max - 1 - n;
    assert max * sizeCap == (n + spare + 1) * sizeCap == n * sizeCap + spare * sizeCap + sizeCap;
  }

  lemma SetStaysValid<K(!new), V>(l: Lru<K, V>, max: nat, key: K, value: V, size: nat, sizeCap: nat)
    requires Consistent(l) && Fits(l, max, sizeCap) && max >= 1 && size <= sizeCap
    ensures l.recency != [] ==> l.recency[0] in l.items
    ensures var room := Room(l, max, key);
            && Consistent(room)
            && EvictUntil(room, max * sizeCap - size) == Effect(room, [])
            && Consistent(Added(room, key, value, size)) && Fits(Added(room, key, value, size), max, sizeCap)
  {
    ByteBoundNeverEvicts(l, max, key, size, sizeCap);
    RoomConsistent(l, max, key, sizeCap);
    AddedConsistent(Room(l, max, key), key, value, size);
    hide Room, Consistent, EvictUntil;
  }

  class LruCache<K(==,!new), V> {
    const max: nat
    const sizeCap: nat
    const maxSize: nat
    var recency: seq<K>
    var items: map<K, V>
    var sizes: map<K, nat>
    var calculatedSize: int

    constructor (max: nat, sizeCap: nat)
      requires max >= 1
      ensures Valid() && Value() == Lru([], map[], map[], 0)
      ensures this.max == max && this.sizeCap == sizeCap
    {
      this.max, this.sizeCap, maxSize := max, sizeCap, max * sizeCap;
      recency, items, sizes, calculatedSize := [], map[], map[], 0;
    }

    ghost function Value(): Lru<K, V>
      reads this
    {
      Lru(recency, items, sizes, calculatedSize)
    }

    ghost predicate Valid()
      reads this
    {
      Consistent(Value()) && Fits(Value(), max, sizeCap) && max >= 1 && maxSize == max * sizeCap
    }

    method Get(key: K) returns (value: Option<V>)
      requires Valid()
      modifies this`recency
      ensures Valid()
      ensures value == if key in items then Some(items[key]) else None
      ensures recency == if key in items then Minus(old(recency), {key}) + [key] else old(recency)
    {
      if key !in items {
        return None;
      }
      TouchedConsistent(Value(), key);
      hide Minus, Consistent;
      recency := Minus(recency, {key}) + [key];
      value := Some(items[key]);
    }

    /** Unlinks a key and disposes of its slot. */
    method Unlink(key: K) returns (disposed: seq<Slot<K, V>>)
      requires Consistent(Value()) && key in items
      modifies this
      ensures Value() == Removed(old(Value()), key) && Consistent(Value())
      ensures disposed == [Slot(key, old(items[key]))]
    {
      hide Consistent, Minus, Removed;
      UnlinkedIs(Value(), key);
      RemovedConsistent(Value(), key);
      disposed := [Slot(key, items[key])];
      recency, items, calculatedSize := Minus(recency, {key}), items - {key}, calculatedSize - sizes[key];
      sizes := sizes - {key};
    }

    /** The loop that makes room for the bytes of a new value. */
    method MakeRoom(limit: int) returns (disposed: seq<Slot<K, V>>)
      requires Consistent(Value())
      modifies this
      ensures Consistent(Value())
      ensures Effect(Value(), disposed) == EvictUntil(old(Value()), limit)
    {
      disposed := [];
      while recency != [] && calculatedSize > limit
        invariant Consistent(Value())
        invariant var rest := EvictUntil(Value(), limit);
                  EvictUntil(old(Value()), limit) == Effect(rest.lru, disposed + rest.disposed)
        decreases |recency|
      {
        hide Total, Minus, Distinct, EvictUntil, Consistent, Removed;
        EvictOne(Value(), limit);
        ghost var rest := EvictUntil(Removed(Value(), recency[0]), limit).disposed;
        var evicted := Unlink(recency[0]);
        AppendAgain(disposed, evicted, rest);
        disposed := disposed + evicted;
      }
    }

    /** Takes out the old slot of a key that is about to be stored, or the oldest slot of a full cache. */
    method TakeOut(key: K) returns (disposed: seq<Slot<K, V>>)
      requires Valid()
      modifies this
      ensures Consistent(Value())
      ensures Value() == Room(old(Value()), max, key) && disposed == DisposedBySet(old(Value()), max, key)
    {
      disposed := [];
      hide Total, Minus, Distinct, Fits, Removed;
      if key in items {
        disposed := Unlink(key);
      } else if |recency| >= max {
        disposed := Unlink(recency[0]);
      }
    }

    method Set(key: K, value: V, bytes: nat) returns (disposed: seq<Slot<K, V>>)
      requires Valid()
      modifies this
      ensures Valid() && disposed == DisposedBySet(old(Value()), max, key)
      ensures Value() == Added(Room(old(Value()), max, key), key, value, if bytes < sizeCap then bytes else sizeCap)
    {
      var size := if bytes < sizeCap then bytes else sizeCap;
      SetStaysValid(Value(), max, key, value, size, sizeCap);
      hide Consistent, Fits, EvictUntil, Room, DisposedBySet, Added;
      disposed := TakeOut(key);
      var more := MakeRoom(maxSize - size);
      AppendNothing(disposed);
      disposed := disposed + more;
      Link(key, value, size);
    }

    /** Links a new slot as the most recently used one. */
    method Link(key: K, value: V, size: nat)
      modifies this
      ensures Value() == Added(old(Value()), key, value, size)
    {
      recency, items := recency + [key], items[key := value];
      sizes, calculatedSize := sizes[key := size], calculatedSize + size;
    }

    method Delete(key: K) returns (disposed: seq<Slot<K, V>>)
      requires Valid()
      modifies this
      ensures Valid()
      ensures key in old(items) ==> Value() == Removed(old(Value()), key) && disposed == [Slot(key, old(items[key]))]
      ensures key !in old(items) ==> Value() == old(Value()) && disposed == []
    {
      if key !in items {
        return [];
      }
      RemovedConsistent(Value(), key);
      disposed := Unlink(key);
    }

    method Clear() returns (disposed: seq<Slot<K, V>>)
      requires Valid()
      modifies this
      ensures Valid() && Value() == Lru([], map[], map[], 0)
      ensures |disposed| == |old(recency)|
      ensures forall i :: 0 <= i < |disposed| ==> disposed[i] == Slot(old(recency)[i], old(items)[old(recency)[i]])
    {
      disposed := [];
      for i := 0 to |recency|
        invariant Value() == old(Value()) && |disposed| == i
        invariant forall j :: 0 <= j < i ==> disposed[j] == Slot(recency[j], items[recency[j]])
      {
        disposed := disposed + [Slot(recency[i], items[recency[i]])];
      }
      recency, items, sizes, calculatedSize := [], map[], map[], 0;
    }
  }
}
