/**
 Whole runs of the response cache (src/cache/cache-store.ts): against a map that never forgets, and
 against the history of uses that decides which entry an overfull store gives up.
 */
module CacheRuns {
  import opened Wrappers
  import opened Sequences
  import opened JsonText
  import opened CacheKey
  import opened LruCache
  import opened CacheStore

  datatype StoreOp =
    | GetOp(key: Digest, now: int)
    | SetOp(key: Digest, entry: CacheEntry)
    | DeleteOp(key: Digest)
    | DeleteServerOp(serverId: ServerId)
    | DeleteToolOp(toolName: Text, serverId: ServerId)
    | ClearOp

  datatype StoreRun = Opened | Did(past: StoreRun, op: StoreOp)

  function Step(f: Flat, max: nat, maxEntryBytes: nat, op: StoreOp): Flat {
    match op
    case GetOp(key, now) => AfterGet(f, key, now)
    case SetOp(key, entry) => if entry.bytes > maxEntryBytes then f else AfterSet(f, max, key, entry)
    case DeleteOp(key) => Dropped(f, {key})
    case DeleteServerOp(serverId) => Dropped(f, KeysOfServer(f, serverId))
    case DeleteToolOp(toolName, serverId) => Dropped(f, KeysOfTool(f, toolName, serverId))
    case ClearOp => Flat([], map[])
  }

  function StoreAfter(run: StoreRun, max: nat, maxEntryBytes: nat): Flat {
    match run
    case Opened => Flat([], map[])
    case Did(past, op) => Step(StoreAfter(past, max, maxEntryBytes), max, maxEntryBytes, op)
  }

  /** The same operation on a plain map that has no bound and keeps expired entries. */
  function MapStep(m: map<Digest, CacheEntry>, maxEntryBytes: nat, op: StoreOp): map<Digest, CacheEntry> {
    match op
    case GetOp(_, _) => m
    case SetOp(key, entry) => if entry.bytes > maxEntryBytes then m else m[key := entry]
    case DeleteOp(key) => m - {key}
    case DeleteServerOp(serverId) => map k | k in m && m[k].serverId != serverId :: m[k]
    case DeleteToolOp(toolName, serverId) =>
      map k | k in m && !(m[k].toolName == toolName && m[k].serverId == serverId) :: m[k]
    case ClearOp => map[]
  }

  function MapAfter(run: StoreRun, maxEntryBytes: nat): map<Digest, CacheEntry> {
    match run
    case Opened => map[]
    case Did(past, op) => MapStep(MapAfter(past, maxEntryBytes), maxEntryBytes, op)
  }

  ghost predicate Sound(f: Flat, max: nat) {
    && Distinct(f.recency)
    && (forall k :: k in f.recency <==> k in f.entries)
    && |f.recency| <= max
  }

  lemma DroppedSound(f: Flat, max: nat, gone: set<Digest>)
    requires Sound(f, max)
    ensures Sound(Dropped(f, gone), max)
    ensures gone * f.entries.Keys != {} ==> |Dropped(f, gone).recency| < |f.recency|
  {
    MinusMembers(f.recency, gone);
    MinusShorter(f.recency, gone);
    hide Minus, Distinct;
  }

  lemma {:induction false} MinusShorter(order: seq<Digest>, gone: set<Digest>)
    ensures |Minus(order, gone)| <= |order|
    ensures (exists k :: k in order && k in gone) ==> |Minus(order, gone)| < |order|
  {
    if order != [] {
      MinusShorter(order[1..], gone);
      assert order == [order[0]] + order[1..];
    }
  }

  lemma StepSound(f: Flat, max: nat, maxEntryBytes: nat, op: StoreOp)
    requires Sound(f, max) && max >= 1
    ensures Sound(Step(f, max, maxEntryBytes, op), max)
  {
    match op
    case GetOp(key, now) => {
      if key in f.entries {
        DroppedSound(f, max, {key});
        assert key in {key} * f.entries.Keys;
        SnocSound(Dropped(f, {key}), max, key, f.entries[key]);
        assert f.entries == (f.entries - {key})[key := f.entries[key]];
      }
    }
    case SetOp(key, entry) => {
      if key in f.entries {
        DroppedSound(f, max, {key});
        assert key in {key} * f.entries.Keys;
        SnocSound(Dropped(f, {key}), max, key, entry);
      } else if |f.recency| >= max {
        assert f.recency[0] in f.entries;
        DroppedSound(f, max, {f.recency[0]});
        assert f.recency[0] in {f.recency[0]} * f.entries.Keys;
        SnocSound(Dropped(f, {f.recency[0]}), max, key, entry);
      } else {
        SnocSound(f, max, key, entry);
      }
    }
    case DeleteOp(key) => DroppedSound(f, max, {key});
    case DeleteServerOp(serverId) => DroppedSound(f, max, KeysOfServer(f, serverId));
    case DeleteToolOp(toolName, serverId) => DroppedSound(f, max, KeysOfTool(f, toolName, serverId));
    case ClearOp =>
  }

  lemma SnocSound(f: Flat, max: nat, key: Digest, entry: CacheEntry)
    requires Sound(f, max) && key !in f.entries && |f.recency| < max
    ensures Sound(Flat(f.recency + [key], f.entries[key := entry]), max)
  {
    DistinctSnoc(f.recency, key);
    hide Distinct;
  }

  lemma {:induction false} RunSound(run: StoreRun, max: nat, maxEntryBytes: nat)
    requires max >= 1
    ensures Sound(StoreAfter(run, max, maxEntryBytes), max)
  {
    hide Sound, Step;
    match run
    case Opened => EmptySound(max);
    case Did(past, op) => {
      RunSound(past, max, maxEntryBytes);
      StepSound(StoreAfter(past, max, maxEntryBytes), max, maxEntryBytes, op);
    }
  }

  lemma EmptySound(max: nat)
    ensures Sound(Flat([], map[]), max)
  {
  }

  // ---------------------------------------------------------------------------------------------
  // Against the map that never forgets

  ghost predicate Submap(a: map<Digest, CacheEntry>, b: map<Digest, CacheEntry>) {
    forall k :: k in a ==> k in b && a[k] == b[k]
  }

  /** The store never invents, revives or alters an entry: it holds a part of what the map holds. */
  lemma {:induction false} StoreWithinMap(run: StoreRun, max: nat, maxEntryBytes: nat)
    ensures Submap(StoreAfter(run, max, maxEntryBytes).entries, MapAfter(run, maxEntryBytes))
  {
    match run
    case Opened =>
    case Did(past, op) => {
      StoreWithinMap(past, max, maxEntryBytes);
      StepWithinMap(StoreAfter(past, max, maxEntryBytes), MapAfter(past, maxEntryBytes), max, maxEntryBytes, op);
    }
  }

  lemma StepWithinMap(f: Flat, m: map<Digest, CacheEntry>, max: nat, maxEntryBytes: nat, op: StoreOp)
    requires Submap(f.entries, m)
    ensures Submap(Step(f, max, maxEntryBytes, op).entries, MapStep(m, maxEntryBytes, op))
  {
    hide Minus;
  }

  /** The operation makes the store give up an entry for lack of room. */
  predicate Evicts(f: Flat, max: nat, maxEntryBytes: nat, op: StoreOp) {
    op.SetOp? && op.entry.bytes <= maxEntryBytes && op.key !in f.entries && |f.recency| >= max
  }

  predicate NeverEvicts(run: StoreRun, max: nat, maxEntryBytes: nat) {
    match run
    case Opened => true
    case Did(past, op) =>
      NeverEvicts(past, max, maxEntryBytes) && !Evicts(StoreAfter(past, max, maxEntryBytes), max, maxEntryBytes, op)
  }

  /** `clock` bounds the times of all reads so far. */
  predicate Before(run: StoreRun, clock: int) {
    match run
    case Opened => true
    case Did(past, op) => Before(past, clock) && (op.GetOp? ==> op.now <= clock)
  }

  /** What is not yet expired at `clock` is the same in both. */
  ghost predicate SameFresh(a: map<Digest, CacheEntry>, b: map<Digest, CacheEntry>, clock: int) {
    forall k :: Found(a, k, clock) == Found(b, k, clock)
  }

  /** As long as nothing is evicted, every lookup answers exactly as the map that never forgets. */
  lemma {:induction false} LookupsAsMap(run: StoreRun, max: nat, maxEntryBytes: nat, clock: int)
    requires NeverEvicts(run, max, maxEntryBytes) && Before(run, clock)
    ensures SameFresh(StoreAfter(run, max, maxEntryBytes).entries, MapAfter(run, maxEntryBytes), clock)
  {
    match run
    case Opened =>
    case Did(past, op) => {
      LookupsAsMap(past, max, maxEntryBytes, clock);
      StoreWithinMap(past, max, maxEntryBytes);
      StepSameFresh(StoreAfter(past, max, maxEntryBytes), MapAfter(past, maxEntryBytes), max, maxEntryBytes, op, clock);
    }
  }

  lemma StepSameFresh(f: Flat, m: map<Digest, CacheEntry>, max: nat, maxEntryBytes: nat, op: StoreOp, clock: int)
    requires SameFresh(f.entries, m, clock) && Submap(f.entries, m)
    requires !Evicts(f, max, maxEntryBytes, op) && (op.GetOp? ==> op.now <= clock)
    ensures SameFresh(Step(f, max, maxEntryBytes, op).entries, MapStep(m, maxEntryBytes, op), clock)
  {
    hide Minus;
    forall k
      ensures Found(Step(f, max, maxEntryBytes, op).entries, k, clock) == Found(MapStep(m, maxEntryBytes, op), k, clock)
    {
      assert Found(f.entries, k, clock) == Found(m, k, clock);
    }
  }

  // ---------------------------------------------------------------------------------------------
  // Least recently used

  function Length(run: StoreRun): nat {
    match run
    case Opened => 0
    case Did(past, _) => Length(past) + 1
  }

  /** A read that finds a live entry, or a write that is accepted. */
  predicate Uses(f: Flat, maxEntryBytes: nat, op: StoreOp, key: Digest) {
    || (op.GetOp? && op.key == key && Found(f.entries, key, op.now).Some?)
    || (op.SetOp? && op.key == key && op.entry.bytes <= maxEntryBytes)
  }

  /** The position of the last use of a key in the run. */
  function LastUse(run: StoreRun, max: nat, maxEntryBytes: nat, key: Digest): nat {
    match run
    case Opened => 0
    case Did(past, op) =>
      if Uses(StoreAfter(past, max, maxEntryBytes), maxEntryBytes, op, key) then Length(run)
      else LastUse(past, max, maxEntryBytes, key)
  }

  lemma {:induction false} LastUseInRun(run: StoreRun, max: nat, maxEntryBytes: nat, key: Digest)
    ensures LastUse(run, max, maxEntryBytes, key) <= Length(run)
  {
    match run
    case Opened =>
    case Did(past, op) => LastUseInRun(past, max, maxEntryBytes, key);
  }

  ghost predicate Ranked(order: seq<Digest>, run: StoreRun, max: nat, maxEntryBytes: nat) {
    forall i, j :: 0 <= i < j < |order| ==>
      LastUse(run, max, maxEntryBytes, order[i]) < LastUse(run, max, maxEntryBytes, order[j])
  }

  lemma {:induction false} MinusRanked(order: seq<Digest>, gone: set<Digest>, run: StoreRun, max: nat,
                                       maxEntryBytes: nat)
    requires Ranked(order, run, max, maxEntryBytes)
    ensures Ranked(Minus(order, gone), run, max, maxEntryBytes)
  {
    hide LastUse;
    if order != [] {
      var head, rest := order[0], order[1..];
      assert forall i :: 0 <= i < |rest| ==> rest[i] == order[i + 1];
      MinusRanked(rest, gone, run, max, maxEntryBytes);
      MinusUnfold(order, gone);
      MinusFrom(rest, gone);
      var r := Minus(rest, gone);
      hide Minus;
      forall j | 0 <= j < |r| ensures LastUse(run, max, maxEntryBytes, head) < LastUse(run, max, maxEntryBytes, r[j]) {
        assert r[j] in rest;
        var i :| 0 <= i < |rest| && rest[i] == r[j];
        assert order[i + 1] == r[j];
      }
      if head !in gone { RankedCons(head, r, run, max, maxEntryBytes); }
    }
  }

  lemma {:induction false} MinusFrom(order: seq<Digest>, gone: set<Digest>)
    ensures forall k :: k in Minus(order, gone) ==> k in order && k !in gone
  {
    if order != [] {
      MinusFrom(order[1..], gone);
      MinusUnfold(order, gone);
    }
  }

  lemma RankedCons(head: Digest, r: seq<Digest>, run: StoreRun, max: nat, maxEntryBytes: nat)
    requires Ranked(r, run, max, maxEntryBytes)
    requires forall j :: 0 <= j < |r| ==>
                LastUse(run, max, maxEntryBytes, head) < LastUse(run, max, maxEntryBytes, r[j])
    ensures Ranked([head] + r, run, max, maxEntryBytes)
  {
    hide LastUse;
  }

  /** The operation leaves the ranks of the unused keys alone and puts the used one last. */
  lemma RankedNext(order: seq<Digest>, past: StoreRun, op: StoreOp, max: nat, maxEntryBytes: nat)
    requires Ranked(order, past, max, maxEntryBytes)
    requires forall k :: k in order ==> !Uses(StoreAfter(past, max, maxEntryBytes), maxEntryBytes, op, k)
    ensures Ranked(order, Did(past, op), max, maxEntryBytes)
  {
    hide Uses, StoreAfter;
  }

  lemma RankedSnoc(order: seq<Digest>, key: Digest, past: StoreRun, op: StoreOp, max: nat, maxEntryBytes: nat)
    requires Ranked(order, past, max, maxEntryBytes)
    requires forall k :: k in order ==> !Uses(StoreAfter(past, max, maxEntryBytes), maxEntryBytes, op, k)
    requires Uses(StoreAfter(past, max, maxEntryBytes), maxEntryBytes, op, key)
    ensures Ranked(order + [key], Did(past, op), max, maxEntryBytes)
  {
    RankedNext(order, past, op, max, maxEntryBytes);
    forall k | k in order
      ensures LastUse(Did(past, op), max, maxEntryBytes, k) < LastUse(Did(past, op), max, maxEntryBytes, key)
    {
      LastUseInRun(past, max, maxEntryBytes, k);
    }
    hide Uses, StoreAfter, LastUse;
  }

  /** The keys of the store are always in the order of their last uses. */
  lemma {:induction false} RecencyByLastUse(run: StoreRun, max: nat, maxEntryBytes: nat)
    requires max >= 1
    ensures Ranked(StoreAfter(run, max, maxEntryBytes).recency, run, max, maxEntryBytes)
  {
    match run
    case Opened =>
    case Did(past, op) => {
      RecencyByLastUse(past, max, maxEntryBytes);
      RunSound(past, max, maxEntryBytes);
      var f := StoreAfter(past, max, maxEntryBytes);
      hide Ranked, Sound, Minus, StoreAfter;
      match op
      case GetOp(key, now) => RankedAfterGet(f, past, key, now, max, maxEntryBytes);
      case SetOp(key, entry) => RankedAfterSet(f, past, key, entry, max, maxEntryBytes);
      case DeleteOp(key) => RankedAfterDrop(f, past, op, {key}, max, maxEntryBytes);
      case DeleteServerOp(serverId) => RankedAfterDrop(f, past, op, KeysOfServer(f, serverId), max, maxEntryBytes);
      case DeleteToolOp(toolName, serverId) =>
        RankedAfterDrop(f, past, op, KeysOfTool(f, toolName, serverId), max, maxEntryBytes);
      case ClearOp => RankedEmpty(Did(past, op), max, maxEntryBytes);
    }
  }

  lemma RankedEmpty(run: StoreRun, max: nat, maxEntryBytes: nat)
    ensures Ranked([], run, max, maxEntryBytes)
  {
  }

  lemma RankedAfterDrop(f: Flat, past: StoreRun, op: StoreOp, gone: set<Digest>, max: nat, maxEntryBytes: nat)
    requires f == StoreAfter(past, max, maxEntryBytes) && Ranked(f.recency, past, max, maxEntryBytes)
    requires forall k :: k in Minus(f.recency, gone) ==> !Uses(f, maxEntryBytes, op, k)
    ensures Ranked(Minus(f.recency, gone), Did(past, op), max, maxEntryBytes)
  {
    MinusRanked(f.recency, gone, past, max, maxEntryBytes);
    hide Ranked, Minus;
    RankedNext(Minus(f.recency, gone), past, op, max, maxEntryBytes);
  }

  lemma RankedAfterGet(f: Flat, past: StoreRun, key: Digest, now: int, max: nat, maxEntryBytes: nat)
    requires f == StoreAfter(past, max, maxEntryBytes) && Ranked(f.recency, past, max, maxEntryBytes)
    ensures Ranked(AfterGet(f, key, now).recency, Did(past, GetOp(key, now)), max, maxEntryBytes)
  {
    var op := GetOp(key, now);
    MinusFrom(f.recency, {key});
    MinusRanked(f.recency, {key}, past, max, maxEntryBytes);
    hide Ranked, Minus, StoreAfter;
    if Found(f.entries, key, now).Some? {
      RankedSnoc(Minus(f.recency, {key}), key, past, op, max, maxEntryBytes);
    } else {
      RankedNext(f.recency, past, op, max, maxEntryBytes);
      RankedNext(Minus(f.recency, {key}), past, op, max, maxEntryBytes);
    }
  }

  lemma RankedAfterSet(f: Flat, past: StoreRun, key: Digest, entry: CacheEntry, max: nat, maxEntryBytes: nat)
    requires f == StoreAfter(past, max, maxEntryBytes) && Ranked(f.recency, past, max, maxEntryBytes) && Sound(f, max)
    ensures Ranked(Step(f, max, maxEntryBytes, SetOp(key, entry)).recency, Did(past, SetOp(key, entry)), max,
                   maxEntryBytes)
  {
    var op := SetOp(key, entry);
    hide Ranked, Minus, StoreAfter;
    if entry.bytes > maxEntryBytes {
      RankedNext(f.recency, past, op, max, maxEntryBytes);
    } else if key in f.entries {
      MinusFrom(f.recency, {key});
      MinusRanked(f.recency, {key}, past, max, maxEntryBytes);
      RankedSnoc(Minus(f.recency, {key}), key, past, op, max, maxEntryBytes);
    } else if |f.recency| >= max && f.recency != [] {
      MinusFrom(f.recency, {f.recency[0]});
      MinusRanked(f.recency, {f.recency[0]}, past, max, maxEntryBytes);
      RankedSnoc(Minus(f.recency, {f.recency[0]}), key, past, op, max, maxEntryBytes);
    } else {
      RankedSnoc(f.recency, key, past, op, max, maxEntryBytes);
    }
  }

  /** What an overfull store gives up is the one entry whose last use is the longest ago. */
  lemma VictimIsLeastRecentlyUsed(run: StoreRun, max: nat, maxEntryBytes: nat, op: StoreOp)
    requires max >= 1 && Evicts(StoreAfter(run, max, maxEntryBytes), max, maxEntryBytes, op)
    ensures var f := StoreAfter(run, max, maxEntryBytes);
            exists victim :: victim in f.entries
              && Step(f, max, maxEntryBytes, op).entries == (f.entries - {victim})[op.key := op.entry]
              && forall k :: k in f.entries && k != victim ==>
                   LastUse(run, max, maxEntryBytes, victim) < LastUse(run, max, maxEntryBytes, k)
  {
    RecencyByLastUse(run, max, maxEntryBytes);
    RunSound(run, max, maxEntryBytes);
    hide StoreAfter, LastUse, Minus, Distinct;
    var f := StoreAfter(run, max, maxEntryBytes);
    var victim := f.recency[0];
    forall k | k in f.entries && k != victim
      ensures LastUse(run, max, maxEntryBytes, victim) < LastUse(run, max, maxEntryBytes, k)
    {
      var j :| 0 <= j < |f.recency| && f.recency[j] == k;
    }
    assert victim in f.entries;
  }

  // ---------------------------------------------------------------------------------------------
  // Hits

  /** The next operation finds the store full, and this is the entry whose last use is the longest ago. */
  ghost predicate GivenUp(run: StoreRun, max: nat, maxEntryBytes: nat, op: StoreOp, key: Digest) {
    var f := StoreAfter(run, max, maxEntryBytes);
    && Evicts(f, max, maxEntryBytes, op) && key in f.entries
    && forall k :: k in f.entries && k != key ==>
         LastUse(run, max, maxEntryBytes, key) < LastUse(run, max, maxEntryBytes, k)
  }

  /** The entry was stored under the key, and since then neither replaced nor deleted nor given up for lack of room. */
  ghost predicate Stands(run: StoreRun, max: nat, maxEntryBytes: nat, key: Digest, entry: CacheEntry) {
    match run
    case Opened => false
    case Did(past, op) =>
      if op.SetOp? && op.key == key && op.entry.bytes <= maxEntryBytes then op.entry == entry
      else
        && Stands(past, max, maxEntryBytes, key, entry)
        && op != DeleteOp(key) && op != DeleteServerOp(entry.serverId)
        && op != DeleteToolOp(entry.toolName, entry.serverId) && op != ClearOp
        && !GivenUp(past, max, maxEntryBytes, op, key)
  }

  /** A lookup finds exactly the entry that stands, as long as it is no older than its time to live in seconds. */
  lemma {:induction false} HitsExactly(run: StoreRun, max: nat, maxEntryBytes: nat, key: Digest, entry: CacheEntry,
                                       clock: int)
    requires max >= 1 && Before(run, clock)
    ensures Found(StoreAfter(run, max, maxEntryBytes).entries, key, clock) == Some(entry)
            <==> Stands(run, max, maxEntryBytes, key, entry) && clock - entry.createdAt <= entry.ttl * 1000
  {
    match run
    case Opened =>
    case Did(past, op) => {
      HitsExactly(past, max, maxEntryBytes, key, entry, clock);
      var f := StoreAfter(past, max, maxEntryBytes);
      hide StoreAfter, LastUse, GivenUp;
      if Evicts(f, max, maxEntryBytes, op) {
        EvictionExactly(past, max, maxEntryBytes, op, key);
      } else {
        assert !GivenUp(past, max, maxEntryBytes, op, key) by { NothingGivenUp(past, max, maxEntryBytes, op, key); }
        StepFinds(f, max, maxEntryBytes, op, key, entry, clock);
      }
    }
  }

  lemma NothingGivenUp(run: StoreRun, max: nat, maxEntryBytes: nat, op: StoreOp, key: Digest)
    requires !Evicts(StoreAfter(run, max, maxEntryBytes), max, maxEntryBytes, op)
    ensures !GivenUp(run, max, maxEntryBytes, op, key)
  {
  }

  /** What is given up is gone, and everything else stays. */
  lemma EvictionExactly(run: StoreRun, max: nat, maxEntryBytes: nat, op: StoreOp, key: Digest)
    requires max >= 1 && Evicts(StoreAfter(run, max, maxEntryBytes), max, maxEntryBytes, op)
    ensures var f := StoreAfter(run, max, maxEntryBytes);
            var r := Step(f, max, maxEntryBytes, op).entries;
            if key == op.key then key in r && r[key] == op.entry
            else
              && (key in r <==> key in f.entries && !GivenUp(run, max, maxEntryBytes, op, key))
              && (key in r ==> r[key] == f.entries[key])
  {
    VictimIsLeastRecentlyUsed(run, max, maxEntryBytes, op);
    hide StoreAfter, LastUse, Step;
  }

  lemma StepFinds(f: Flat, max: nat, maxEntryBytes: nat, op: StoreOp, key: Digest, entry: CacheEntry, clock: int)
    requires !Evicts(f, max, maxEntryBytes, op) && (op.GetOp? ==> op.now <= clock)
    ensures Found(Step(f, max, maxEntryBytes, op).entries, key, clock) == Some(entry)
            <==> (if op.SetOp? && op.key == key && op.entry.bytes <= maxEntryBytes then
                    op.entry == entry && clock - entry.createdAt <= entry.ttl * 1000
                  else
                    && Found(f.entries, key, clock) == Some(entry)
                    && op != DeleteOp(key) && op != DeleteServerOp(entry.serverId)
                    && op != DeleteToolOp(entry.toolName, entry.serverId) && op != ClearOp)
  {
    hide Minus;
  }
}
