/**
 The in-memory response cache (src/cache/cache-store.ts): an LRU with two secondary indexes that its
 dispose callback keeps up to date, proved to behave as one bounded map from keys to entries.
 */
module CacheStore {
  import opened Numbers
  import opened Wrappers
  import opened Sequences
  import opened JsonText
  import opened CacheKey
  import opened LruCache

  const AT: CodeUnit := 64

  datatype ServerId = ServerId(text: Text)

  datatype ToolIndexKey = ToolIndexKey(text: Text)

  /** `bytes` is the length of the entry's own JSON text in UTF-8; times are in milliseconds, `ttl` in seconds. */
  datatype CacheEntry = CacheEntry(result: Json, createdAt: int, ttl: int, toolName: Text, serverId: ServerId,
                                   bytes: nat)

  function ToolKey(toolName: Text, serverId: ServerId): ToolIndexKey {
    ToolIndexKey(toolName + [AT] + serverId.text)
  }

  /** Configured server ids contain no `@` (src/config/schema.ts:642), so the two parts can be told apart. */
  lemma ToolKeyInjective(t1: Text, s1: ServerId, t2: Text, s2: ServerId)
    requires AT !in s1.text && AT !in s2.text
    ensures ToolKey(t1, s1) == ToolKey(t2, s2) <==> t1 == t2 && s1 == s2
  {
    if ToolKey(t1, s1) == ToolKey(t2, s2) {
      LastSplitUnique(t1, t2, AT, s1.text, s2.text);
    }
  }

  /** With an `@` in the server id they cannot. */
  lemma ToolKeyAmbiguous(tool: Text, x: Text, y: Text)
    ensures ToolKey(tool, ServerId(x + [AT] + y)) == ToolKey(tool + [AT] + x, ServerId(y))
    ensures tool != tool + [AT] + x
  {
    assert tool + [AT] + (x + [AT] + y) == (tool + [AT] + x) + [AT] + y;
    assert |tool| < |tool + [AT] + x|;
  }

  // ---------------------------------------------------------------------------------------------
  // Secondary indexes

  function Members<I(==)>(index: map<I, set<Digest>>, id: I): set<Digest> {
    if id in index then index[id] else {}
  }

  function Unlisted<I(==)>(index: map<I, set<Digest>>, id: I, key: Digest): map<I, set<Digest>> {
    if id in index then index[id := index[id] - {key}] else index
  }

  function Listed<I(==)>(index: map<I, set<Digest>>, id: I, key: Digest): map<I, set<Digest>> {
    index[id := Members(index, id) + {key}]
  }

  /** Each index set holds exactly the keys that belong to its id. */
  ghost predicate Indexed<I(!new)>(owners: map<Digest, I>, index: map<I, set<Digest>>) {
    forall id, key :: key in Members(index, id) <==> key in owners && owners[key] == id
  }

  lemma UnlistedIndexed<I(!new)>(owners: map<Digest, I>, index: map<I, set<Digest>>, id: I, key: Digest)
    requires Indexed(owners, index) && (key in owners ==> owners[key] == id)
    ensures Indexed(owners - {key}, Unlisted(index, id, key))
  {
    forall i, k ensures k in Members(Unlisted(index, id, key), i) <==> k in owners - {key} && owners[k] == i {
      assert k in Members(index, i) <==> k in owners && owners[k] == i;
    }
  }

  lemma ListedIndexed<I(!new)>(owners: map<Digest, I>, index: map<I, set<Digest>>, id: I, key: Digest)
    requires Indexed(owners, index) && key !in owners
    ensures Indexed(owners[key := id], Listed(index, id, key))
  {
    forall i, k
      ensures k in Members(Listed(index, id, key), i) <==> k in owners[key := id] && owners[key := id][k] == i
    {
      assert k in Members(index, i) <==> k in owners && owners[k] == i;
    }
  }

  lemma EmptiedIndexed<I(!new)>(owners: map<Digest, I>, index: map<I, set<Digest>>, id: I)
    requires Indexed(owners, index) && forall key :: key in owners ==> owners[key] != id
    ensures Indexed(owners, index - {id})
  {
    forall i, k ensures k in Members(index - {id}, i) <==> k in owners && owners[k] == i {
      assert k in Members(index, i) <==> k in owners && owners[k] == i;
    }
  }

  function Servers(entries: map<Digest, CacheEntry>): map<Digest, ServerId> {
    map k | k in entries :: entries[k].serverId
  }

  function Tools(entries: map<Digest, CacheEntry>): map<Digest, ToolIndexKey> {
    map k | k in entries :: ToolKey(entries[k].toolName, entries[k].serverId)
  }

  datatype Indexes = Indexes(servers: map<ServerId, set<Digest>>, tools: map<ToolIndexKey, set<Digest>>)

  ghost predicate Listings(entries: map<Digest, CacheEntry>, indexes: Indexes) {
    Indexed(Servers(entries), indexes.servers) && Indexed(Tools(entries), indexes.tools)
  }

  /** What the dispose callback does to the indexes. */
  function Disposed(indexes: Indexes, key: Digest, value: CacheEntry): Indexes {
    Indexes(Unlisted(indexes.servers, value.serverId, key),
            Unlisted(indexes.tools, ToolKey(value.toolName, value.serverId), key))
  }

  lemma DisposedListings(entries: map<Digest, CacheEntry>, indexes: Indexes, key: Digest, value: CacheEntry)
    requires Listings(entries, indexes) && (key in entries ==> entries[key] == value)
    ensures Listings(entries - {key}, Disposed(indexes, key, value))
  {
    UnlistedIndexed(Servers(entries), indexes.servers, value.serverId, key);
    UnlistedIndexed(Tools(entries), indexes.tools, ToolKey(value.toolName, value.serverId), key);
    assert Servers(entries - {key}) == Servers(entries) - {key};
    assert Tools(entries - {key}) == Tools(entries) - {key};
    hide Indexed, ToolKey, Unlisted, Servers, Tools;
  }

  lemma AddedListings(entries: map<Digest, CacheEntry>, indexes: Indexes, key: Digest, value: CacheEntry)
    requires Listings(entries, indexes) && key !in entries
    ensures Listings(entries[key := value],
                     Indexes(Listed(indexes.servers, value.serverId, key),
                             Listed(indexes.tools, ToolKey(value.toolName, value.serverId), key)))
  {
    ListedIndexed(Servers(entries), indexes.servers, value.serverId, key);
    ListedIndexed(Tools(entries), indexes.tools, ToolKey(value.toolName, value.serverId), key);
    assert Servers(entries[key := value]) == Servers(entries)[key := value.serverId];
    assert Tools(entries[key := value]) == Tools(entries)[key := ToolKey(value.toolName, value.serverId)];
    hide Indexed, ToolKey, Listed, Servers, Tools;
  }

  // ---------------------------------------------------------------------------------------------
  // The store as one bounded map

  datatype Flat = Flat(recency: seq<Digest>, entries: map<Digest, CacheEntry>)

  function Dropped(f: Flat, gone: set<Digest>): Flat {
    Flat(Minus(f.recency, gone), f.entries - gone)
  }

  predicate Fresh(entry: CacheEntry, now: int) {
    now - entry.createdAt <= entry.ttl * 1000
  }

  function Found(entries: map<Digest, CacheEntry>, key: Digest, now: int): Option<CacheEntry> {
    if key in entries && Fresh(entries[key], now) then Some(entries[key]) else None
  }

  function AfterGet(f: Flat, key: Digest, now: int): Flat {
    if key !in f.entries then f
    else if Fresh(f.entries[key], now) then Flat(Minus(f.recency, {key}) + [key], f.entries)
    else Dropped(f, {key})
  }

  /** A full store that does not hold the key loses its least recently used entry. */
  function AfterSet(f: Flat, max: nat, key: Digest, entry: CacheEntry): Flat {
    var room := if key in f.entries then Dropped(f, {key})
                else if |f.recency| >= max && f.recency != [] then Dropped(f, {f.recency[0]})
                else f;
    Flat(room.recency + [key], room.entries[key := entry])
  }

  function KeysOfServer(f: Flat, serverId: ServerId): set<Digest> {
    set k | k in f.entries && f.entries[k].serverId == serverId
  }

  function KeysOfTool(f: Flat, toolName: Text, serverId: ServerId): set<Digest> {
    set k | k in f.entries && f.entries[k].toolName == toolName && f.entries[k].serverId == serverId
  }

  lemma DroppedTwice(f: Flat, a: set<Digest>, b: set<Digest>)
    ensures Dropped(Dropped(f, a), b) == Dropped(f, a + b)
  {
    MinusTwice(f.recency, a, b);
  }

  lemma DroppedNothing(f: Flat, gone: set<Digest>)
    requires forall k :: k in f.recency ==> k !in gone
    requires f.entries.Keys !! gone
    ensures Dropped(f, gone) == f
  {
    MinusNothing(f.recency, gone);
  }

  /** Reading a key first makes no difference to dropping it. */
  lemma TouchThenDrop(f: Flat, key: Digest)
    ensures Dropped(Flat(Minus(f.recency, {key}) + [key], f.entries), {key}) == Dropped(f, {key})
  {
    MinusSnoc(Minus(f.recency, {key}), key, {key});
    MinusTwice(f.recency, {key}, {key});
    assert {key} + {key} == {key};
    assert Minus(f.recency, {key}) + [] == Minus(f.recency, {key});
  }

  /** Every server id is one that the configuration allows. */
  ghost predicate PlainServers(entries: map<Digest, CacheEntry>) {
    forall k :: k in entries ==> AT !in entries[k].serverId.text
  }

  lemma FewerServers(entries: map<Digest, CacheEntry>, gone: set<Digest>)
    requires PlainServers(entries)
    ensures PlainServers(entries - gone)
  {
  }

  /** Deleting unlists a key twice: once itself and once through the callback. */
  lemma DisposedTwice(entries: map<Digest, CacheEntry>, lists: Indexes, key: Digest)
    requires Listings(entries, lists)
    ensures key in entries ==>
              var v := entries[key]; Listings(entries - {key}, Disposed(Disposed(lists, key, v), key, v))
    ensures key !in entries ==> Listings(entries - {key}, lists)
  {
    hide Listings, Disposed;
    if key in entries {
      var v := entries[key];
      DisposedListings(entries, lists, key, v);
      DisposedListings(entries - {key}, Disposed(lists, key, v), key, v);
      assert entries - {key} - {key} == entries - {key};
    } else {
      assert entries - {key} == entries;
    }
  }

  function DisposedAll(lists: Indexes, disposed: seq<Slot<Digest, CacheEntry>>): Indexes {
    if disposed == [] then lists
    else
      var last := disposed[|disposed| - 1];
      Disposed(DisposedAll(lists, disposed[..|disposed| - 1]), last.key, last.value)
  }

  /** Storing a value leaves the indexes exact for what is left in the cache beside it. */
  lemma SetListings(l: Lru<Digest, CacheEntry>, max: nat, key: Digest, entry: CacheEntry, lists: Indexes)
    requires Consistent(l) && Listings(l.items, lists) && PlainServers(l.items) && AT !in entry.serverId.text
    ensures l.recency != [] ==> l.recency[0] in l.items
    ensures var room := Room(l, max, key);
            && key !in room.items
            && Listings(room.items, DisposedAll(lists, DisposedBySet(l, max, key)))
            && PlainServers(room.items[key := entry])
  {
    hide Listings, Disposed, Minus, Total, Distinct;
    if l.recency != [] { assert l.recency[0] in l.items; }
    var disposed := DisposedBySet(l, max, key);
    if disposed != [] {
      var slot := disposed[0];
      DisposedListings(l.items, lists, slot.key, slot.value);
      assert disposed == [slot] && disposed[..0] == [];
    }
  }

  lemma SetContents(l: Lru<Digest, CacheEntry>, max: nat, key: Digest, entry: CacheEntry, size: nat)
    requires Consistent(l)
    ensures l.recency != [] ==> l.recency[0] in l.items
    ensures var r := Added(Room(l, max, key), key, entry, size);
            Flat(r.recency, r.items) == AfterSet(Flat(l.recency, l.items), max, key, entry)
  {
    hide Minus, Total, Distinct;
    if l.recency != [] { assert l.recency[0] in l.items; }
  }

  lemma ListedTwoWays<I>(index: map<I, set<Digest>>, id: I, key: Digest)
    ensures Listed(if id in index then index else index[id := {}], id, key) == Listed(index, id, key)
  {
  }

  /** The index set of a server is the set of its keys. */
  lemma ServerKeys(f: Flat, lists: Indexes, serverId: ServerId)
    requires Listings(f.entries, lists)
    ensures KeysOfServer(f, serverId) == Members(lists.servers, serverId)
  {
    assert forall k :: k in Members(lists.servers, serverId) <==>
        k in Servers(f.entries) && Servers(f.entries)[k] == serverId;
  }

  lemma NoneDropped(l: Lru<Digest, CacheEntry>)
    ensures Dropped(Flat(l.recency, l.items), {}) == Flat(l.recency, l.items)
  {
    DroppedNothing(Flat(l.recency, l.items), {});
  }

  lemma DropOneMore(f: Flat, keys: set<Digest>, todo: set<Digest>, key: Digest)
    requires key in todo && todo <= keys
    ensures Dropped(Dropped(f, keys - todo), {key}) == Dropped(f, keys - (todo - {key}))
  {
    DroppedTwice(f, keys - todo, {key});
    assert keys - todo + {key} == keys - (todo - {key});
  }

  lemma UnlistedTwice<I>(index: map<I, set<Digest>>, id: I, key: Digest)
    ensures Unlisted(Unlisted(index, id, key), id, key) == Unlisted(index, id, key)
  {
    if id in index {
      assert index[id] - {key} - {key} == index[id] - {key};
      assert Unlisted(index, id, key)[id := index[id] - {key}] == Unlisted(index, id, key);
    }
  }

  /** Unlisting a key from the tool index before its slot is deleted changes nothing in the end. */
  lemma UnlistedFirst(entries: map<Digest, CacheEntry>, lists: Indexes, key: Digest)
    requires Listings(entries, lists)
    ensures key in entries ==>
              var v := entries[key];
              var first := lists.(tools := Unlisted(lists.tools, ToolKey(v.toolName, v.serverId), key));
              Listings(entries - {key}, Disposed(first, key, v))
    ensures key !in entries ==> Listings(entries - {key}, lists)
  {
    hide Listings, ToolKey;
    if key in entries {
      var v := entries[key];
      var first := lists.(tools := Unlisted(lists.tools, ToolKey(v.toolName, v.serverId), key));
      DisposedListings(entries, lists, key, v);
      UnlistedTwice(lists.tools, ToolKey(v.toolName, v.serverId), key);
    } else {
      assert entries - {key} == entries;
    }
  }

  lemma DisposedOnce(entries: map<Digest, CacheEntry>, lists: Indexes, key: Digest)
    requires Listings(entries, lists)
    ensures key in entries ==> Listings(entries - {key}, Disposed(lists, key, entries[key]))
    ensures key !in entries ==> Listings(entries - {key}, lists)
  {
    if key in entries {
      DisposedListings(entries, lists, key, entries[key]);
    } else {
      assert entries - {key} == entries;
    }
  }

  /** The index set of a tool is the set of its keys. */
  lemma ToolKeys(f: Flat, lists: Indexes, toolName: Text, serverId: ServerId)
    requires Listings(f.entries, lists) && PlainServers(f.entries) && AT !in serverId.text
    ensures KeysOfTool(f, toolName, serverId) == Members(lists.tools, ToolKey(toolName, serverId))
  {
    var tk := ToolKey(toolName, serverId);
    assert forall k :: k in Members(lists.tools, tk) <==> k in Tools(f.entries) && Tools(f.entries)[k] == tk;
    hide Indexed, ToolKey;
    forall k | k in f.entries
      ensures Tools(f.entries)[k] == tk <==> f.entries[k].toolName == toolName && f.entries[k].serverId == serverId
    {
      ToolKeyInjective(f.entries[k].toolName, f.entries[k].serverId, toolName, serverId);
    }
  }

  lemma NoneOfTool(start: Flat, keys: set<Digest>, toolName: Text, serverId: ServerId, entries: map<Digest, CacheEntry>,
                   lists: Indexes)
    requires keys == KeysOfTool(start, toolName, serverId) && entries == start.entries - keys
    requires Listings(entries, lists)
    requires PlainServers(start.entries) && AT !in serverId.text
    ensures var left := Members(lists.tools, ToolKey(toolName, serverId));
            left == {} && Members(lists.servers, serverId) - left == Members(lists.servers, serverId)
    ensures Listings(entries, lists.(tools := lists.tools - {ToolKey(toolName, serverId)}))
    ensures serverId in lists.servers ==> lists.servers[serverId := lists.servers[serverId]] == lists.servers
    ensures PlainServers(entries)
  {
    var tk := ToolKey(toolName, serverId);
    FewerServers(start.entries, keys);
    ToolKeys(Flat([], entries), lists, toolName, serverId);
    hide PlainServers, Indexed, ToolKey;
    assert KeysOfTool(Flat([], entries), toolName, serverId) == {};
    NoToolLeft(entries, lists, tk);
  }

  lemma NoToolLeft(entries: map<Digest, CacheEntry>, lists: Indexes, tk: ToolIndexKey)
    requires Indexed(Tools(entries), lists.tools) && Members(lists.tools, tk) == {}
    ensures Indexed(Tools(entries), lists.tools - {tk})
  {
    hide Tools;
    var owners := Tools(entries);
    forall key | key in owners ensures owners[key] != tk {
      assert key !in Members(lists.tools, tk);
    }
    EmptiedIndexed(owners, lists.tools, tk);
  }

  /** Once all keys of a server are gone its index set may go too. */
  lemma NoneLeft(start: Flat, keys: set<Digest>, serverId: ServerId, entries: map<Digest, CacheEntry>, lists: Indexes)
    requires keys == KeysOfServer(start, serverId) && entries == start.entries - keys && Listings(entries, lists)
    requires PlainServers(start.entries)
    ensures Listings(entries, lists.(servers := lists.servers - {serverId}))
    ensures PlainServers(entries)
  {
    FewerServers(start.entries, keys);
    hide PlainServers, Tools, Indexed;
    EmptiedIndexed(Servers(entries), lists.servers, serverId);
  }

  lemma NothingListed()
    ensures Listings(map[], Indexes(map[], map[])) && PlainServers(map[])
  {
  }

  class CacheStore {
    const maxEntryBytes: nat
    const cache: LruCache<Digest, CacheEntry>
    var serverIndex: map<ServerId, set<Digest>>
    var toolIndex: map<ToolIndexKey, set<Digest>>
    var hits: nat
    var misses: nat
    var skips: nat

    constructor (maxEntries: nat, maxEntryBytes: nat)
      requires maxEntries >= 1
      ensures Valid() && fresh(cache) && cache.max == maxEntries && this.maxEntryBytes == maxEntryBytes
      ensures Contents() == Flat([], map[]) && hits == misses == skips == 0
    {
      this.maxEntryBytes := maxEntryBytes;
      cache := new LruCache(maxEntries, maxEntryBytes);
      serverIndex, toolIndex := map[], map[];
      hits, misses, skips := 0, 0, 0;
    }

    ghost function Contents(): Flat
      reads this, cache
    {
      Flat(cache.recency, cache.items)
    }

    ghost function Lists(): Indexes
      reads this
    {
      Indexes(serverIndex, toolIndex)
    }

    ghost predicate Valid()
      reads this, cache
    {
      && cache.Valid() && cache.sizeCap == maxEntryBytes
      && Listings(cache.items, Lists())
      && PlainServers(cache.items)
    }

    /** The dispose callback given to the LRU. */
    method Dispose(value: CacheEntry, key: Digest)
      modifies this`serverIndex, this`toolIndex
      ensures Lists() == Disposed(old(Lists()), key, value)
    {
      if value.serverId in serverIndex {
        serverIndex := serverIndex[value.serverId := serverIndex[value.serverId] - {key}];
      }
      Unlist(ToolKey(value.toolName, value.serverId), key);
    }

    method Unlist(toolKey: ToolIndexKey, key: Digest)
      modifies this`toolIndex
      ensures toolIndex == Unlisted(old(toolIndex), toolKey, key)
    {
      if toolKey in toolIndex {
        toolIndex := toolIndex[toolKey := toolIndex[toolKey] - {key}];
      }
    }

    /** Deletes a key from the LRU, which calls back for the slot it held. */
    method DeleteSlot(key: Digest) returns (found: bool)
      requires cache.Valid()
      modifies this`serverIndex, this`toolIndex, cache
      ensures cache.Valid() && found == (key in old(cache.items))
      ensures Contents() == Dropped(old(Contents()), {key})
      ensures Lists() == if found then Disposed(old(Lists()), key, old(cache.items[key])) else old(Lists())
    {
      found := key in cache.items;
      MissingKeyDropped(cache.Value(), key);
      hide Consistent, Fits, Minus;
      var disposed := cache.Delete(key);
      for i := 0 to |disposed|
        invariant cache.Valid() && Contents() == Dropped(old(Contents()), {key})
        invariant found == (key in old(cache.items))
        invariant disposed == if found then [Slot(key, old(cache.items[key]))] else []
        invariant Lists() == if i == 0 then old(Lists()) else Disposed(old(Lists()), key, disposed[0].value)
      {
        Dispose(disposed[i].value, disposed[i].key);
      }
    }

    method Delete(key: Digest) returns (found: bool)
      requires Valid()
      modifies this`serverIndex, this`toolIndex, cache
      ensures Valid() && found == (key in old(cache.items))
      ensures Contents() == Dropped(old(Contents()), {key})
    {
      TouchThenDrop(Contents(), key);
      DisposedTwice(cache.items, Lists(), key);
      ghost var before := cache.items;
      hide Consistent, Fits, Minus, Listings, Disposed, Unlisted, PlainServers;
      var entry := cache.Get(key);
      if entry.Some? {
        Dispose(entry.value, key);
      }
      found := DeleteSlot(key);
      FewerServers(before, {key});
    }

    method Get(key: Digest, now: int) returns (result: Option<CacheEntry>)
      requires Valid()
      modifies this, cache
      ensures Valid() && skips == old(skips)
      ensures result == Found(old(cache.items), key, now)
      ensures Contents() == AfterGet(old(Contents()), key, now)
      ensures (hits, misses) == if result.Some? then (old(hits) + 1, old(misses)) else (old(hits), old(misses) + 1)
    {
      TouchThenDrop(Contents(), key);
      hide Consistent, Fits, Minus, Listings;
      var entry := cache.Get(key);
      if entry.None? {
        misses := misses + 1;
        return None;
      }
      var ageMs := now - entry.value.createdAt;
      var ttlMs := entry.value.ttl * 1000;
      if ageMs > ttlMs {
        var _ := Delete(key);
        misses := misses + 1;
        return None;
      }
      hits := hits + 1;
      result := entry;
    }

    method DisposeAll(disposed: seq<Slot<Digest, CacheEntry>>)
      modifies this`serverIndex, this`toolIndex
      ensures Lists() == DisposedAll(old(Lists()), disposed)
    {
      hide Disposed;
      for i := 0 to |disposed|
        invariant Lists() == DisposedAll(old(Lists()), disposed[..i])
      {
        assert disposed[..i + 1][..i] == disposed[..i];
        Dispose(disposed[i].value, disposed[i].key);
      }
      assert disposed[..|disposed|] == disposed;
    }

    method Set(key: Digest, entry: CacheEntry)
      requires Valid() && AT !in entry.serverId.text
      modifies this`serverIndex, this`toolIndex, cache
      ensures Valid()
      ensures Contents() == if entry.bytes > maxEntryBytes then old(Contents())
                            else AfterSet(old(Contents()), cache.max, key, entry)
    {
      if entry.bytes > maxEntryBytes {
        return;
      }
      SetListings(cache.Value(), cache.max, key, entry, Lists());
      ghost var room := Room(cache.Value(), cache.max, key);
      SetContents(cache.Value(), cache.max, key, entry, Min(entry.bytes, cache.sizeCap));
      hide Consistent, Fits, Listings, PlainServers, Room, DisposedBySet, Listed, AfterSet, DisposedAll;
      var disposed := cache.Set(key, entry, entry.bytes);
      DisposeAll(disposed);
      AddedListings(room.items, Lists(), key, entry);
      List(entry, key);
    }

    method List(entry: CacheEntry, key: Digest)
      modifies this`serverIndex, this`toolIndex
      ensures serverIndex == Listed(old(serverIndex), entry.serverId, key)
      ensures toolIndex == Listed(old(toolIndex), ToolKey(entry.toolName, entry.serverId), key)
    {
      ListedTwoWays(serverIndex, entry.serverId, key);
      if entry.serverId !in serverIndex {
        serverIndex := serverIndex[entry.serverId := {}];
      }
      serverIndex := serverIndex[entry.serverId := serverIndex[entry.serverId] + {key}];
      var toolIndexKey := ToolKey(entry.toolName, entry.serverId);
      ListedTwoWays(toolIndex, toolIndexKey, key);
      if toolIndexKey !in toolIndex {
        toolIndex := toolIndex[toolIndexKey := {}];
      }
      toolIndex := toolIndex[toolIndexKey := toolIndex[toolIndexKey] + {key}];
    }

    /** One entry of `DeleteByServer`: it is read before it is deleted, to clean the tool index. */
    method DeleteOfServer(key: Digest)
      requires cache.Valid() && Listings(cache.items, Lists())
      modifies this`serverIndex, this`toolIndex, cache
      ensures cache.Valid() && Listings(cache.items, Lists()) && Contents() == Dropped(old(Contents()), {key})
    {
      hide Consistent, Fits, Listings, Disposed, Unlisted, Minus, ToolKey;
      TouchThenDrop(Contents(), key);
      UnlistedFirst(cache.items, Lists(), key);
      var entry := cache.Get(key);
      if entry.Some? {
        Unlist(ToolKey(entry.value.toolName, entry.value.serverId), key);
      }
      var _ := DeleteSlot(key);
    }

    method DeleteEachOfServer(keys: set<Digest>) returns (count: nat)
      requires cache.Valid() && Listings(cache.items, Lists())
      modifies this`serverIndex, this`toolIndex, cache
      ensures cache.Valid() && Listings(cache.items, Lists())
      ensures Contents() == Dropped(old(Contents()), keys) && count == |keys|
    {
      ghost var start := Contents();
      NoneDropped(cache.Value());
      count := 0;
      var todo := keys;
      assert keys - todo == {};
      hide *;
      while todo != {}
        invariant todo <= keys && count == |keys| - |todo|
        invariant cache.Valid() && Listings(cache.items, Lists())
        invariant Contents() == Dropped(start, keys - todo)
        decreases |todo|
      {
        var key :| key in todo;
        DropOneMore(start, keys, todo, key);
        DeleteOfServer(key);
        count := count + 1;
        todo := todo - {key};
      }
      assert keys - todo == keys;
    }

    /** Invalidates all entries of a server. */
    method DeleteByServer(serverId: ServerId) returns (count: nat)
      requires Valid()
      modifies this`serverIndex, this`toolIndex, cache
      ensures Valid()
      ensures Contents() == Dropped(old(Contents()), KeysOfServer(old(Contents()), serverId))
      ensures count == |KeysOfServer(old(Contents()), serverId)|
    {
      ghost var start := Contents();
      ServerKeys(start, Lists(), serverId);
      NoneDropped(cache.Value());
      if serverId !in serverIndex {
        return 0;
      }
      var keys := serverIndex[serverId];
      hide Consistent, Fits, Listings, KeysOfServer, PlainServers, Minus;
      count := DeleteEachOfServer(keys);
      NoneLeft(start, keys, serverId, cache.items, Lists());
      serverIndex := serverIndex - {serverId};
    }

    method DeleteEachOfTool(keys: set<Digest>) returns (count: nat)
      requires cache.Valid() && Listings(cache.items, Lists())
      modifies this`serverIndex, this`toolIndex, cache
      ensures cache.Valid() && Listings(cache.items, Lists())
      ensures Contents() == Dropped(old(Contents()), keys) && count == |keys|
    {
      ghost var start := Contents();
      NoneDropped(cache.Value());
      count := 0;
      var todo := keys;
      assert keys - todo == {};
      hide *;
      while todo != {}
        invariant todo <= keys && count == |keys| - |todo|
        invariant cache.Valid() && Listings(cache.items, Lists())
        invariant Contents() == Dropped(start, keys - todo)
        decreases |todo|
      {
        var key :| key in todo;
        DropOneMore(start, keys, todo, key);
        DeleteOfTool(key);
        count := count + 1;
        todo := todo - {key};
      }
      assert keys - todo == keys;
    }

    /** One entry of `DeleteByTool`: the callback alone keeps the indexes. */
    method DeleteOfTool(key: Digest)
      requires cache.Valid() && Listings(cache.items, Lists())
      modifies this`serverIndex, this`toolIndex, cache
      ensures cache.Valid() && Listings(cache.items, Lists()) && Contents() == Dropped(old(Contents()), {key})
    {
      DisposedOnce(cache.items, Lists(), key);
      hide Consistent, Fits, Listings, Disposed, Minus;
      var _ := DeleteSlot(key);
    }

    /** Invalidates all entries of one tool of a server. */
    method DeleteByTool(toolName: Text, serverId: ServerId) returns (count: nat)
      requires Valid() && AT !in serverId.text
      modifies this`serverIndex, this`toolIndex, cache
      ensures Valid()
      ensures Contents() == Dropped(old(Contents()), KeysOfTool(old(Contents()), toolName, serverId))
      ensures count == |KeysOfTool(old(Contents()), toolName, serverId)|
    {
      hide Consistent, Fits, Listings, KeysOfTool, PlainServers, Minus, ToolKey;
      ghost var start := Contents();
      ToolKeys(start, Lists(), toolName, serverId);
      NoneDropped(cache.Value());
      var toolIndexKey := ToolKey(toolName, serverId);
      if toolIndexKey !in toolIndex {
        return 0;
      }
      var keys := toolIndex[toolIndexKey];
      count := DeleteEachOfTool(keys);
      NoneOfTool(start, keys, toolName, serverId, cache.items, Lists());
      // By now the callback has emptied the index set of the tool.
      if serverId in serverIndex {
        serverIndex := serverIndex[serverId := serverIndex[serverId] - Members(toolIndex, toolIndexKey)];
      }
      toolIndex := toolIndex - {toolIndexKey};
    }

    method Clear()
      requires Valid()
      modifies this, cache
      ensures Valid() && Contents() == Flat([], map[]) && hits == misses == skips == 0
    {
      hide Consistent, Fits, DisposedAll;
      NothingListed();
      var disposed := cache.Clear();
      DisposeAll(disposed);
      serverIndex, toolIndex := map[], map[];
      hits, misses, skips := 0, 0, 0;
    }

    method RecordSkip()
      requires Valid()
      modifies this`skips
      ensures Valid() && skips == old(skips) + 1
    {
      skips := skips + 1;
    }
  }

  lemma MissingKeyDropped(l: Lru<Digest, CacheEntry>, key: Digest)
    requires Consistent(l)
    ensures key !in l.items ==> Dropped(Flat(l.recency, l.items), {key}) == Flat(l.recency, l.items)
  {
    if key !in l.items { DroppedNothing(Flat(l.recency, l.items), {key}); }
  }
}
