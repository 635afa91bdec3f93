/**
 The queue of requests that wait for rate-limit capacity (src/rate-limit/queue.ts): one FIFO list per
 limiter key, polled by a timer. All keys share one limiter, as the rate limiter uses the queue.
 */
module WaitQueue {
  import opened Numbers
  import opened Sequences
  import opened SlidingBucket
  import opened SlidingWindow

  datatype Entry = Entry(id: nat, deadline: int)

  /** The limit and the window are those of the request that created the list. */
  datatype KeyState = KeyState(entries: seq<Entry>, limit: int, window: nat)

  /** How the promise of an entry was settled. */
  datatype Outcome = Resolved | TimedOut | QueueFull | Stopped | Disabled

  /** The limiter key that a list waits for. */
  datatype QueueKey = QueueKey(text: string)

  /** Keys are in insertion order. */
  datatype Queue = Queue(order: seq<QueueKey>, keys: map<QueueKey, KeyState>, outcomes: map<nat, Outcome>,
                         polling: bool)

  datatype Both = Both(queue: Queue, limiter: State)

  // ---------------------------------------------------------------------------------------------
  // One key in one pass

  function Expired(entries: seq<Entry>, now: int): seq<Entry> {
    if entries == [] then []
    else (if now >= entries[0].deadline then [entries[0]] else []) + Expired(entries[1..], now)
  }

  function Survivors(entries: seq<Entry>, now: int): seq<Entry> {
    if entries == [] then []
    else (if now >= entries[0].deadline then [] else [entries[0]]) + Survivors(entries[1..], now)
  }

  function FreeSlots(lim: State, key: string, limit: int, window: nat, now: int): nat {
    Max(0, limit - |Filter(Bucket(lim, StorageKey(key, window)), now - window)|)
  }

  datatype Resolution = Resolution(count: nat, limiter: State)

  /** The resolving loop for a key with `waiting` entries: check, and as long as that passes, consume. */
  function Resolve(lim: State, maxBuckets: nat, key: string, limit: int, window: nat, waiting: nat,
                   now: int): Resolution
    decreases waiting
  {
    if waiting == 0 then Resolution(0, lim)
    else
      var check := CheckOp(key, limit, window, now, now);
      var checked := Apply(lim, maxBuckets, check);
      if !AnswerOf(lim, check).allowed then Resolution(0, checked)
      else
        var consumed := Apply(checked, maxBuckets, ConsumeOp(key, limit, window, now, now));
        var rest := Resolve(consumed, maxBuckets, key, limit, window, waiting - 1, now);
        Resolution(rest.count + 1, rest.limiter)
  }

  lemma ConsumedBucket(lim: State, maxBuckets: nat, key: string, limit: int, window: nat, now: int)
    requires FreeSlots(lim, key, limit, window, now) > 0
    ensures var checked := Apply(lim, maxBuckets, CheckOp(key, limit, window, now, now));
            var consumed := Apply(checked, maxBuckets, ConsumeOp(key, limit, window, now, now));
            var valid := Filter(Bucket(lim, StorageKey(key, window)), now - window);
            && Filter(Bucket(consumed, StorageKey(key, window)), now - window) == valid + [now]
            && FreeSlots(consumed, key, limit, window, now) == FreeSlots(lim, key, limit, window, now) - 1
  {
    hide Apply, Filter, Bucket, StorageKey;
    var sk := StorageKey(key, window);
    var check, consume := CheckOp(key, limit, window, now, now), ConsumeOp(key, limit, window, now, now);
    var b := Bucket(lim, sk);
    BucketAfterOp(lim, maxBuckets, check, sk);
    BucketAfterOp(Apply(lim, maxBuckets, check), maxBuckets, consume, sk);
    assert Filter(b, now - window) + [] == Filter(b, now - window);
    FilterTwice(b, now - window, now - window);
    FilterSnoc(Filter(b, now - window), now, now - window);
  }

  lemma DeniedBucket(lim: State, maxBuckets: nat, key: string, limit: int, window: nat, now: int)
    ensures Filter(Bucket(Apply(lim, maxBuckets, CheckOp(key, limit, window, now, now)), StorageKey(key, window)),
                   now - window)
            == Filter(Bucket(lim, StorageKey(key, window)), now - window)
  {
    hide Apply, Filter, Bucket, StorageKey;
    var sk := StorageKey(key, window);
    BucketAfterOp(lim, maxBuckets, CheckOp(key, limit, window, now, now), sk);
    assert Filter(Bucket(lim, sk), now - window) + [] == Filter(Bucket(lim, sk), now - window);
    FilterTwice(Bucket(lim, sk), now - window, now - window);
  }

  /** The loop resolves as many entries as there are free slots, and takes exactly one slot for each. */
  lemma {:induction false} ResolveTakesFreeSlots(lim: State, maxBuckets: nat, key: string, limit: int, window: nat,
                                                 waiting: nat, now: int)
    ensures var r := Resolve(lim, maxBuckets, key, limit, window, waiting, now);
            && r.count == Min(waiting, FreeSlots(lim, key, limit, window, now))
            && Filter(Bucket(r.limiter, StorageKey(key, window)), now - window)
               == Filter(Bucket(lim, StorageKey(key, window)), now - window) + Repeat(now, r.count)
    decreases waiting
  {
    var sk := StorageKey(key, window);
    hide Apply, Filter, StorageKey, Bucket;
    if waiting > 0 {
      var checked := Apply(lim, maxBuckets, CheckOp(key, limit, window, now, now));
      if FreeSlots(lim, key, limit, window, now) > 0 {
        ConsumedBucket(lim, maxBuckets, key, limit, window, now);
        ResolveTakesFreeSlots(Apply(checked, maxBuckets, ConsumeOp(key, limit, window, now, now)), maxBuckets, key,
                              limit, window, waiting - 1, now);
        AppendAgain(Filter(Bucket(lim, sk), now - window), [now],
                    Repeat(now, Min(waiting, FreeSlots(lim, key, limit, window, now)) - 1));
      } else {
        DeniedBucket(lim, maxBuckets, key, limit, window, now);
      }
    }
  }

  // ---------------------------------------------------------------------------------------------
  // The whole queue

  function Settle(outcomes: map<nat, Outcome>, entries: seq<Entry>, outcome: Outcome): map<nat, Outcome>
    decreases entries
  {
    if entries == [] then outcomes else Settle(outcomes[entries[0].id := outcome], entries[1..], outcome)
  }

  function PutEntries(q: Queue, key: QueueKey, entries: seq<Entry>): Queue
    requires key in q.keys
  {
    if entries == [] then q.(order := Without(q.order, key), keys := q.keys - {key})
    else q.(keys := q.keys[key := q.keys[key].(entries := entries)])
  }

  function PassKey(s: Both, maxBuckets: nat, key: QueueKey, now: int): Both
    requires key in s.queue.keys
  {
    var ks := s.queue.keys[key];
    var alive := Survivors(ks.entries, now);
    var r := Resolve(s.limiter, maxBuckets, key.text, ks.limit, ks.window, |alive|, now);
    ResolveAtMost(s.limiter, maxBuckets, key.text, ks.limit, ks.window, |alive|, now);
    var timedOut := Settle(s.queue.outcomes, Expired(ks.entries, now), TimedOut);
    Both(PutEntries(s.queue, key, alive[r.count..]).(outcomes := Settle(timedOut, alive[..r.count], Resolved)),
         r.limiter)
  }

  lemma {:induction false} ResolveAtMost(lim: State, maxBuckets: nat, key: string, limit: int, window: nat,
                                         waiting: nat, now: int)
    ensures Resolve(lim, maxBuckets, key, limit, window, waiting, now).count <= waiting
    decreases waiting
  {
    hide Apply, AnswerOf;
    if waiting > 0 {
      var checked := Apply(lim, maxBuckets, CheckOp(key, limit, window, now, now));
      ResolveAtMost(Apply(checked, maxBuckets, ConsumeOp(key, limit, window, now, now)), maxBuckets, key, limit, window,
                    waiting - 1, now);
    }
  }

  function Ids(entries: seq<Entry>): set<nat> {
    set i | 0 <= i < |entries| :: entries[i].id
  }

  ghost predicate DistinctIds(entries: seq<Entry>) {
    forall i, j :: 0 <= i < j < |entries| ==> entries[i].id != entries[j].id
  }

  ghost predicate Waiting(q: Queue, id: nat) {
    exists key :: key in q.keys && id in Ids(q.keys[key].entries)
  }

  /** Every entry ever issued is exactly one of waiting or settled, in one list and in one place. */
  ghost predicate Conserved(q: Queue, issued: set<nat>) {
    && (forall key :: key in q.keys ==> DistinctIds(q.keys[key].entries) && Ids(q.keys[key].entries) !! q.outcomes.Keys)
    && (forall k1, k2 :: k1 in q.keys && k2 in q.keys && k1 != k2 ==>
          Ids(q.keys[k1].entries) !! Ids(q.keys[k2].entries))
    && (forall id :: id in issued <==> id in q.outcomes || Waiting(q, id))
  }

  ghost predicate Bounded(q: Queue, maxQueueSize: nat) {
    && Distinct(q.order)
    && (forall key :: key in q.order <==> key in q.keys)
    && (forall key :: key in q.keys ==> 0 < |q.keys[key].entries| <= maxQueueSize)
  }

  lemma {:induction false} SettleOutcomes(outcomes: map<nat, Outcome>, entries: seq<Entry>, outcome: Outcome)
    requires DistinctIds(entries)
    ensures var r := Settle(outcomes, entries, outcome);
            && r.Keys == outcomes.Keys + Ids(entries)
            && (forall id :: id in Ids(entries) ==> r[id] == outcome)
            && (forall id :: id in outcomes && id !in Ids(entries) ==> r[id] == outcomes[id])
    decreases entries
  {
    if entries != [] {
      SettleOutcomes(outcomes[entries[0].id := outcome], entries[1..], outcome);
      IdsCons(entries);
    }
  }

  lemma IdsCons(entries: seq<Entry>)
    requires entries != []
    ensures Ids(entries) == {entries[0].id} + Ids(entries[1..])
  {
    forall id ensures id in Ids(entries) <==> id == entries[0].id || id in Ids(entries[1..]) {
      if id in Ids(entries) && id != entries[0].id {
        var i :| 0 <= i < |entries| && entries[i].id == id;
        assert entries[1..][i - 1].id == id;
      }
      if id in Ids(entries[1..]) {
        var i :| 0 <= i < |entries[1..]| && entries[1..][i].id == id;
        assert entries[i + 1].id == id;
      }
    }
  }

  /** The entries whose deadline has come, and the others, each entry in exactly one of the two lists. */
  ghost predicate Divided(entries: seq<Entry>, dead: seq<Entry>, alive: seq<Entry>, now: int) {
    && DistinctIds(dead) && DistinctIds(alive) && Ids(dead) !! Ids(alive)
    && Ids(dead) + Ids(alive) == Ids(entries)
    && (forall e :: e in dead <==> e in entries && e.deadline <= now)
    && (forall e :: e in alive <==> e in entries && e.deadline > now)
    && |dead| + |alive| == |entries|
  }

  lemma {:induction false} DividesIds(entries: seq<Entry>, now: int)
    requires DistinctIds(entries)
    ensures var dead, alive := Expired(entries, now), Survivors(entries, now);
            && DistinctIds(dead) && DistinctIds(alive) && Ids(dead) !! Ids(alive)
            && Ids(dead) + Ids(alive) == Ids(entries)
  {
    if entries != [] {
      var e, rest := entries[0], entries[1..];
      DistinctIdsDrop(entries);
      hide Ids, DistinctIds;
      DividesIds(rest, now);
      assert entries == [e] + rest;
      var dead, alive := Expired(rest, now), Survivors(rest, now);
      if now >= e.deadline {
        AddToPart(e, dead, alive, rest);
        assert [] + alive == alive;
      } else {
        AddToPart(e, alive, dead, rest);
        assert [] + dead == dead;
      }
    }
  }

  lemma {:induction false} DividesMembers(entries: seq<Entry>, now: int)
    ensures forall e :: e in Expired(entries, now) <==> e in entries && e.deadline <= now
    ensures forall e :: e in Survivors(entries, now) <==> e in entries && e.deadline > now
    ensures |Expired(entries, now)| + |Survivors(entries, now)| == |entries|
  {
    if entries != [] {
      DividesMembers(entries[1..], now);
      assert entries == [entries[0]] + entries[1..];
    }
  }

  lemma DividesEntries(entries: seq<Entry>, now: int)
    requires DistinctIds(entries)
    ensures Divided(entries, Expired(entries, now), Survivors(entries, now), now)
  {
    DividesIds(entries, now);
    DividesMembers(entries, now);
    hide Ids, DistinctIds, Expired, Survivors;
  }

  /** Rejecting splits the list: the expired entries and the others, both in their order. */
  lemma SplitByDeadline(entries: seq<Entry>, now: int)
    requires DistinctIds(entries)
    ensures Divided(entries, Expired(entries, now), Survivors(entries, now), now)
    ensures IsSubsequence(Expired(entries, now), entries) && IsSubsequence(Survivors(entries, now), entries)
  {
    hide *;
    DividesEntries(entries, now);
    PartsInOrder(entries, now);
  }

  lemma {:induction false} PartsInOrder(entries: seq<Entry>, now: int)
    ensures IsSubsequence(Expired(entries, now), entries) && IsSubsequence(Survivors(entries, now), entries)
  {
    if entries != [] {
      hide IsSubsequence;
      var rest := entries[1..];
      PartsInOrder(rest, now);
      KeptOrSkipped(entries[0], Expired(rest, now), rest);
      KeptOrSkipped(entries[0], Survivors(rest, now), rest);
      assert entries == [entries[0]] + rest;
    }
  }

  lemma KeptOrSkipped(e: Entry, part: seq<Entry>, rest: seq<Entry>)
    requires IsSubsequence(part, rest)
    ensures IsSubsequence([e] + part, [e] + rest) && IsSubsequence([] + part, [e] + rest)
  {
    assert ([e] + part)[1..] == part && ([e] + rest)[1..] == rest && [] + part == part;
  }

  lemma DistinctIdsDrop(entries: seq<Entry>)
    requires entries != [] && DistinctIds(entries)
    ensures DistinctIds(entries[1..]) && entries[0].id !in Ids(entries[1..])
  {
    assert forall i :: 0 <= i < |entries| - 1 ==> entries[1..][i] == entries[i + 1];
  }

  lemma AddToPart(e: Entry, part: seq<Entry>, other: seq<Entry>, rest: seq<Entry>)
    requires DistinctIds(part) && Ids(part) !! Ids(other) && Ids(part) + Ids(other) == Ids(rest) && e.id !in Ids(rest)
    ensures DistinctIds([e] + part) && Ids([e] + part) !! Ids(other) && Ids([e] + part) + Ids(other) == Ids([e] + rest)
  {
    IdsCons([e] + part);
    IdsCons([e] + rest);
    assert ([e] + part)[1..] == part && ([e] + rest)[1..] == rest;
    DistinctIdsCons([e] + part);
  }

  lemma DistinctIdsCons(entries: seq<Entry>)
    requires entries != [] && DistinctIds(entries[1..]) && entries[0].id !in Ids(entries[1..])
    ensures DistinctIds(entries)
  {
    forall i, j | 0 <= i < j < |entries| ensures entries[i].id != entries[j].id {
      assert entries[1..][j - 1].id in Ids(entries[1..]);
      if i > 0 { assert entries[1..][i - 1] == entries[i] && entries[1..][j - 1] == entries[j]; }
    }
  }

  lemma CutIds(entries: seq<Entry>, n: nat)
    requires n <= |entries| && DistinctIds(entries)
    ensures DistinctIds(entries[..n]) && DistinctIds(entries[n..])
    ensures Ids(entries[..n]) !! Ids(entries[n..]) && Ids(entries[..n]) + Ids(entries[n..]) == Ids(entries)
  {
    var a, b := entries[..n], entries[n..];
    forall id ensures id in Ids(entries) <==> id in Ids(a) || id in Ids(b) {
      if id in Ids(entries) {
        var i :| 0 <= i < |entries| && entries[i].id == id;
        if i < n { assert a[i].id == id; } else { assert b[i - n].id == id; }
      }
      if id in Ids(b) {
        var i :| 0 <= i < |b| && b[i].id == id;
        assert entries[i + n].id == id;
      }
    }
  }

  function EntriesOf(q: Queue, key: QueueKey): seq<Entry> {
    if key in q.keys then q.keys[key].entries else []
  }

  /** How many entries of a key a pass resolves. */
  function Served(s: Both, key: QueueKey, now: int): nat
    requires key in s.queue.keys
  {
    var ks := s.queue.keys[key];
    Min(|Survivors(ks.entries, now)|, FreeSlots(s.limiter, key.text, ks.limit, ks.window, now))
  }

  /** What became of the entries of one key in a pass: expired ones rejected, a FIFO prefix of the rest resolved. */
  ghost predicate KeyServed(entries: seq<Entry>, now: int, served: nat, q: Queue, key: QueueKey) {
    var dead, alive := Expired(entries, now), Survivors(entries, now);
    && served <= |alive|
    && (forall id :: id in Ids(dead) ==> id in q.outcomes && q.outcomes[id] == TimedOut)
    && (forall id :: id in Ids(alive[..served]) ==> id in q.outcomes && q.outcomes[id] == Resolved)
    && EntriesOf(q, key) == alive[served..]
  }

  lemma PutEntriesBounded(q: Queue, maxQueueSize: nat, key: QueueKey, entries: seq<Entry>)
    requires Bounded(q, maxQueueSize) && key in q.keys && |entries| <= maxQueueSize
    ensures Bounded(PutEntries(q, key, entries), maxQueueSize)
    ensures EntriesOf(PutEntries(q, key, entries), key) == entries
    ensures forall k :: k != key ==> (k in PutEntries(q, key, entries).keys <==> k in q.keys)
    ensures forall k :: k in q.keys && k != key ==> PutEntries(q, key, entries).keys[k] == q.keys[k]
  {
    if entries == [] {
      RemovedBounded(q, maxQueueSize, key);
    } else {
      ReplacedBounded(q, maxQueueSize, key, entries);
    }
    hide Bounded;
  }

  lemma RemovedBounded(q: Queue, maxQueueSize: nat, key: QueueKey)
    requires Bounded(q, maxQueueSize) && key in q.keys
    ensures Bounded(q.(order := Without(q.order, key), keys := q.keys - {key}), maxQueueSize)
  {
    WithoutMembers(q.order, key);
    hide Distinct, Without;
  }

  lemma ReplacedBounded(q: Queue, maxQueueSize: nat, key: QueueKey, entries: seq<Entry>)
    requires Bounded(q, maxQueueSize) && key in q.keys && 0 < |entries| <= maxQueueSize
    ensures Bounded(q.(keys := q.keys[key := q.keys[key].(entries := entries)]), maxQueueSize)
  {
    hide Distinct;
  }

  /** The outcomes after rejecting `dead` and resolving `served`. */
  lemma SettleBoth(outcomes: map<nat, Outcome>, dead: seq<Entry>, served: seq<Entry>)
    requires DistinctIds(dead) && DistinctIds(served) && Ids(dead) !! Ids(served)
    requires Ids(dead) !! outcomes.Keys && Ids(served) !! outcomes.Keys
    ensures var r := Settle(Settle(outcomes, dead, TimedOut), served, Resolved);
            && r.Keys == outcomes.Keys + Ids(dead) + Ids(served)
            && (forall id :: id in Ids(dead) ==> r[id] == TimedOut)
            && (forall id :: id in Ids(served) ==> r[id] == Resolved)
            && (forall id :: id in outcomes ==> r[id] == outcomes[id])
  {
    SettleOutcomes(outcomes, dead, TimedOut);
    SettleOutcomes(Settle(outcomes, dead, TimedOut), served, Resolved);
    hide Settle, Ids, DistinctIds;
  }

  /** The queue after a pass over one key has rejected `dead`, resolved `served` and kept `left`. */
  function Updated(q: Queue, key: QueueKey, dead: seq<Entry>, served: seq<Entry>, left: seq<Entry>): Queue
    requires key in q.keys
  {
    PutEntries(q, key, left).(outcomes := Settle(Settle(q.outcomes, dead, TimedOut), served, Resolved))
  }

  /** Apart from the list of `key` and the outcomes of `settled`, nothing has changed. */
  ghost predicate OnlyTouches(q: Queue, r: Queue, key: QueueKey, settled: set<nat>) {
    && r.outcomes.Keys == q.outcomes.Keys + settled
    && (forall id :: id in q.outcomes ==> r.outcomes[id] == q.outcomes[id])
    && (forall k :: k != key ==> (k in r.keys <==> k in q.keys))
    && (forall k :: k in q.keys && k != key ==> r.keys[k] == q.keys[k])
    && r.polling == q.polling
  }

  lemma UpdatedTouches(q: Queue, key: QueueKey, dead: seq<Entry>, served: seq<Entry>, left: seq<Entry>,
                       maxQueueSize: nat)
    requires key in q.keys && Bounded(q, maxQueueSize) && |left| <= maxQueueSize
    requires DistinctIds(dead) && DistinctIds(served) && Ids(dead) !! Ids(served)
    requires Ids(dead) !! q.outcomes.Keys && Ids(served) !! q.outcomes.Keys
    ensures var r := Updated(q, key, dead, served, left);
            && OnlyTouches(q, r, key, Ids(dead) + Ids(served))
            && (forall id :: id in Ids(dead) ==> r.outcomes[id] == TimedOut)
            && (forall id :: id in Ids(served) ==> r.outcomes[id] == Resolved)
            && EntriesOf(r, key) == left
            && Bounded(r, maxQueueSize)
  {
    SettleBoth(q.outcomes, dead, served);
    PutEntriesBounded(q, maxQueueSize, key, left);
    hide Settle, Ids, DistinctIds, Distinct, PutEntries;
    var put := PutEntries(q, key, left);
    assert Bounded(put, maxQueueSize);
  }

  lemma PassKeyShape(s: Both, maxBuckets: nat, key: QueueKey, now: int)
    requires key in s.queue.keys
    ensures var entries := s.queue.keys[key].entries;
            var dead, alive, n := Expired(entries, now), Survivors(entries, now), Served(s, key, now);
            && n <= |alive|
            && PassKey(s, maxBuckets, key, now).queue == Updated(s.queue, key, dead, alive[..n], alive[n..])
  {
    var ks := s.queue.keys[key];
    ResolveTakesFreeSlots(s.limiter, maxBuckets, key.text, ks.limit, ks.window, |Survivors(ks.entries, now)|, now);
    hide Resolve, FreeSlots, Expired, Survivors, Settle, PutEntries;
  }

  /** The entries of a list in good order split into rejected, resolved and kept ones. */
  lemma SplitList(entries: seq<Entry>, now: int, n: nat)
    requires DistinctIds(entries) && n <= |Survivors(entries, now)|
    ensures var dead, alive := Expired(entries, now), Survivors(entries, now);
            && DistinctIds(dead) && DistinctIds(alive[..n]) && DistinctIds(alive[n..])
            && Ids(dead) !! Ids(alive[..n]) && Ids(dead) + Ids(alive[..n]) !! Ids(alive[n..])
            && Ids(dead) + Ids(alive[..n]) + Ids(alive[n..]) == Ids(entries)
            && |alive| <= |entries|
  {
    DividesEntries(entries, now);
    CutIds(Survivors(entries, now), n);
    hide Expired, Survivors, Ids, DistinctIds;
  }

  /** A pass over one key rejects, resolves and keeps exactly the right entries, and touches nothing else. */
  lemma PassKeyServes(s: Both, maxBuckets: nat, maxQueueSize: nat, key: QueueKey, now: int, issued: set<nat>)
    requires key in s.queue.keys && Bounded(s.queue, maxQueueSize) && Conserved(s.queue, issued)
    ensures var entries := s.queue.keys[key].entries;
            var r := PassKey(s, maxBuckets, key, now).queue;
            && KeyServed(entries, now, Served(s, key, now), r, key)
            && OnlyTouches(s.queue, r, key, Ids(entries) - Ids(EntriesOf(r, key)))
            && Bounded(r, maxQueueSize)
            && Conserved(r, issued)
  {
    hide PassKey, Served, Expired, Survivors, Updated, Bounded, DistinctIds, Ids, Conserved, OnlyTouches;
    var entries, n := s.queue.keys[key].entries, Served(s, key, now);
    var dead, alive := Expired(entries, now), Survivors(entries, now);
    InGoodOrder(s.queue, maxQueueSize, key, issued);
    PassKeyShape(s, maxBuckets, key, now);
    SplitList(entries, now, n);
    ListServed(s.queue, key, dead, alive[..n], alive[n..], maxQueueSize, issued);
  }

  lemma InGoodOrder(q: Queue, maxQueueSize: nat, key: QueueKey, issued: set<nat>)
    requires key in q.keys && Bounded(q, maxQueueSize) && Conserved(q, issued)
    ensures DistinctIds(q.keys[key].entries) && Ids(q.keys[key].entries) !! q.outcomes.Keys
    ensures |q.keys[key].entries| <= maxQueueSize
  {
  }

  lemma ListServed(q: Queue, key: QueueKey, dead: seq<Entry>, served: seq<Entry>, left: seq<Entry>, maxQueueSize: nat,
                   issued: set<nat>)
    requires key in q.keys && Bounded(q, maxQueueSize) && Conserved(q, issued) && |left| <= maxQueueSize
    requires DistinctIds(dead) && DistinctIds(served) && DistinctIds(left)
    requires Ids(dead) !! Ids(served) && Ids(dead) + Ids(served) !! Ids(left)
    requires Ids(dead) + Ids(served) + Ids(left) == Ids(q.keys[key].entries)
    ensures var r := Updated(q, key, dead, served, left);
            && OnlyTouches(q, r, key, Ids(q.keys[key].entries) - Ids(EntriesOf(r, key)))
            && (forall id :: id in Ids(dead) ==> id in r.outcomes && r.outcomes[id] == TimedOut)
            && (forall id :: id in Ids(served) ==> id in r.outcomes && r.outcomes[id] == Resolved)
            && EntriesOf(r, key) == left
            && Bounded(r, maxQueueSize)
            && Conserved(r, issued)
  {
    InGoodOrder(q, maxQueueSize, key, issued);
    hide Updated, Bounded, DistinctIds, Ids, Conserved;
    UpdatedTouches(q, key, dead, served, left, maxQueueSize);
    assert Ids(q.keys[key].entries) - Ids(left) == Ids(dead) + Ids(served);
    NothingWaiting(left);
    ConservedAfter(q, Updated(q, key, dead, served, left), key, issued, Ids(dead) + Ids(served), left);
  }

  lemma NothingWaiting(entries: seq<Entry>)
    ensures Ids(entries) == {} <==> entries == []
  {
    if entries != [] { assert entries[0].id in Ids(entries); }
  }

  /** Settling some entries of one list and keeping the others loses none and settles none twice. */
  lemma ConservedAfter(q: Queue, r: Queue, key: QueueKey, issued: set<nat>, settled: set<nat>, left: seq<Entry>)
    requires Conserved(q, issued) && key in q.keys
    requires settled !! Ids(left) && settled + Ids(left) == Ids(q.keys[key].entries) && DistinctIds(left)
    requires OnlyTouches(q, r, key, settled)
    requires key in r.keys ==> r.keys[key].entries == left
    requires key !in r.keys ==> Ids(left) == {}
    ensures Conserved(r, issued)
  {
    hide DistinctIds, Ids;
    forall k | k in r.keys
      ensures DistinctIds(r.keys[k].entries) && Ids(r.keys[k].entries) !! r.outcomes.Keys
      ensures Ids(r.keys[k].entries) <= Ids(q.keys[k].entries)
    {
    }
    forall k1, k2 | k1 in r.keys && k2 in r.keys && k1 != k2
      ensures Ids(r.keys[k1].entries) !! Ids(r.keys[k2].entries)
    {
      assert Ids(q.keys[k1].entries) !! Ids(q.keys[k2].entries);
    }
    forall id ensures id in issued <==> id in r.outcomes || Waiting(r, id) {
      if Waiting(q, id) && id !in r.outcomes {
        var k :| k in q.keys && id in Ids(q.keys[k].entries);
        assert k in r.keys && id in Ids(r.keys[k].entries);
      }
      if Waiting(r, id) {
        var k :| k in r.keys && id in Ids(r.keys[k].entries);
        assert k in q.keys && id in Ids(q.keys[k].entries);
      }
    }
  }

  // ---------------------------------------------------------------------------------------------
  // One pass over all keys

  function PassKeys(s: Both, maxBuckets: nat, keys: seq<QueueKey>, now: int): Both
    requires Distinct(keys) && forall key :: key in keys ==> key in s.queue.keys
    decreases |keys|
  {
    if keys == [] then s
    else
      var next := PassKey(s, maxBuckets, keys[0], now);
      OthersStay(s, maxBuckets, keys, now);
      PassKeys(next, maxBuckets, keys[1..], now)
  }

  lemma OthersStay(s: Both, maxBuckets: nat, keys: seq<QueueKey>, now: int)
    requires keys != [] && Distinct(keys) && forall key :: key in keys ==> key in s.queue.keys
    ensures Distinct(keys[1..])
    ensures forall key :: key in keys[1..] ==> key in PassKey(s, maxBuckets, keys[0], now).queue.keys && key != keys[0]
  {
    DistinctDrop(keys, 1);
    hide Resolve, Settle, Without, Expired, Survivors;
    forall key | key in keys[1..] ensures key in PassKey(s, maxBuckets, keys[0], now).queue.keys && key != keys[0] {
      assert keys[0] in keys[..1];
    }
  }

  /** The timer callback: a pass over the keys in insertion order, and the end of polling when none is left. */
  function ProcessAll(s: Both, maxBuckets: nat, now: int): Both
    requires Distinct(s.queue.order) && forall key :: key in s.queue.order ==> key in s.queue.keys
  {
    var r := PassKeys(s, maxBuckets, s.queue.order, now);
    r.(queue := r.queue.(polling := r.queue.polling && r.queue.keys != map[]))
  }

  /** The bucket is as it was, or an eviction on behalf of another key has emptied it. */
  ghost predicate KeptOrDropped(before: State, after: State, sk: BucketKey) {
    Bucket(after, sk) == Bucket(before, sk) || Bucket(after, sk) == []
  }

  lemma OtherOpKeepsOrDrops(lim: State, maxBuckets: nat, op: Op, sk: BucketKey)
    requires !OnBucket(op, sk)
    ensures KeptOrDropped(lim, Apply(lim, maxBuckets, op), sk)
  {
    if !Loses(lim, maxBuckets, op, sk) {
      BucketAfterOp(lim, maxBuckets, op, sk);
    } else {
      hide Apply;
    }
  }

  lemma {:induction false} OtherKeyKeepsOrDrops(lim: State, maxBuckets: nat, key: string, limit: int, window: nat,
                                                waiting: nat, now: int, sk: BucketKey)
    requires StorageKey(key, window) != sk
    ensures KeptOrDropped(lim, Resolve(lim, maxBuckets, key, limit, window, waiting, now).limiter, sk)
    decreases waiting
  {
    hide Apply, StorageKey, Bucket, AnswerOf;
    if waiting > 0 {
      var check, consume := CheckOp(key, limit, window, now, now), ConsumeOp(key, limit, window, now, now);
      var checked := Apply(lim, maxBuckets, check);
      OtherOpKeepsOrDrops(lim, maxBuckets, check, sk);
      OtherOpKeepsOrDrops(checked, maxBuckets, consume, sk);
      OtherKeyKeepsOrDrops(Apply(checked, maxBuckets, consume), maxBuckets, key, limit, window, waiting - 1, now, sk);
    }
  }

  /** What a pass has done when the turn of `key` comes. */
  function TurnState(s: Both, maxBuckets: nat, keys: seq<QueueKey>, key: QueueKey, now: int): Both
    requires Distinct(keys) && key in keys && forall k :: k in keys ==> k in s.queue.keys
    decreases |keys|
  {
    if keys[0] == key then s
    else
      OthersStay(s, maxBuckets, keys, now);
      TurnState(PassKey(s, maxBuckets, keys[0], now), maxBuckets, keys[1..], key, now)
  }

  lemma {:induction false} TurnAfterPrefix(s: Both, maxBuckets: nat, keys: seq<QueueKey>, i: nat, now: int)
    requires Distinct(keys) && i < |keys| && forall k :: k in keys ==> k in s.queue.keys
    ensures TurnState(s, maxBuckets, keys, keys[i], now) == PassKeys(s, maxBuckets, keys[..i], now)
    decreases |keys|
  {
    hide PassKey;
    if i > 0 {
      OthersStay(s, maxBuckets, keys, now);
      TurnAfterPrefix(PassKey(s, maxBuckets, keys[0], now), maxBuckets, keys[1..], i - 1, now);
      assert keys[..i][1..] == keys[1..][..i - 1];
    }
  }

  function KeyBucket(q: Queue, key: QueueKey): BucketKey
    requires key in q.keys
  {
    StorageKey(key.text, q.keys[key].window)
  }

  /** The stamps of a key's bucket that count at the time of the pass. */
  function Counted(lim: State, q: Queue, key: QueueKey, now: int): seq<int>
    requires key in q.keys
  {
    Filter(Bucket(lim, KeyBucket(q, key)), now - q.keys[key].window)
  }

  /**
   The turn of a key in a pass from `s` to `r`, which finds the state `at`. Its list is as it was at the start,
   and its bucket too unless an eviction has emptied it. The expired entries are rejected; of the others as
   many are resolved, in FIFO order, as there are free slots; and each of them takes exactly one slot. After
   the turn nothing but an eviction touches the bucket.
   */
  ghost predicate KeyTurn(s: Both, maxBuckets: nat, key: QueueKey, now: int, at: Both, r: Both) {
    && key in s.queue.keys && key in at.queue.keys && at.queue.keys[key] == s.queue.keys[key]
    && KeptOrDropped(s.limiter, at.limiter, KeyBucket(s.queue, key))
    && KeyServed(s.queue.keys[key].entries, now, Served(at, key, now), r.queue, key)
    && var after := PassKey(at, maxBuckets, key, now).limiter;
       && Counted(after, s.queue, key, now)
          == Counted(at.limiter, s.queue, key, now) + Repeat(now, Served(at, key, now))
       && KeptOrDropped(after, r.limiter, KeyBucket(s.queue, key))
  }

  ghost predicate Extends(q: Queue, r: Queue, touched: seq<QueueKey>) {
    && (forall id :: id in q.outcomes ==> id in r.outcomes && r.outcomes[id] == q.outcomes[id])
    && (forall k :: k !in touched ==> EntriesOf(r, k) == EntriesOf(q, k))
    && r.polling == q.polling
  }

  lemma KeyServedKept(entries: seq<Entry>, now: int, n: nat, q: Queue, r: Queue, key: QueueKey, touched: seq<QueueKey>)
    requires KeyServed(entries, now, n, q, key) && Extends(q, r, touched) && key !in touched
    ensures KeyServed(entries, now, n, r, key)
  {
    hide Expired, Survivors, Ids;
  }

  lemma PassKeyExtends(s: Both, maxBuckets: nat, maxQueueSize: nat, key: QueueKey, now: int, issued: set<nat>)
    requires key in s.queue.keys && Bounded(s.queue, maxQueueSize) && Conserved(s.queue, issued)
    ensures var r := PassKey(s, maxBuckets, key, now);
            && Extends(s.queue, r.queue, [key])
            && (forall k :: k in s.queue.keys && k != key ==> k in r.queue.keys && r.queue.keys[k] == s.queue.keys[k])
            && KeyTurn(s, maxBuckets, key, now, s, r)
            && Bounded(r.queue, maxQueueSize) && Conserved(r.queue, issued)
  {
    PassKeyServes(s, maxBuckets, maxQueueSize, key, now, issued);
    PassKeySlots(s, maxBuckets, key, now);
    hide PassKey, Served, KeyServed, Bounded, Conserved, Ids, StorageKey, Bucket, OnlyTouches, Extends, Counted, Repeat;
    var r := PassKey(s, maxBuckets, key, now).queue;
    TouchesExtends(s.queue, r, key, Ids(s.queue.keys[key].entries) - Ids(EntriesOf(r, key)));
  }

  /** Every entry that is resolved takes one slot. */
  lemma PassKeySlots(s: Both, maxBuckets: nat, key: QueueKey, now: int)
    requires key in s.queue.keys
    ensures Counted(PassKey(s, maxBuckets, key, now).limiter, s.queue, key, now)
            == Counted(s.limiter, s.queue, key, now) + Repeat(now, Served(s, key, now))
  {
    hide *;
    var ks := s.queue.keys[key];
    var waiting := |Survivors(ks.entries, now)|;
    var r := Resolve(s.limiter, maxBuckets, key.text, ks.limit, ks.window, waiting, now);
    PassKeyResolves(s, maxBuckets, key, now);
    ResolveTakesFreeSlots(s.limiter, maxBuckets, key.text, ks.limit, ks.window, waiting, now);
    CountSlots(s, r.limiter, key, now, r.count);
  }

  lemma CountSlots(s: Both, after: State, key: QueueKey, now: int, n: nat)
    requires key in s.queue.keys
    requires var ks := s.queue.keys[key];
             && n == Min(|Survivors(ks.entries, now)|, FreeSlots(s.limiter, key.text, ks.limit, ks.window, now))
             && Filter(Bucket(after, StorageKey(key.text, ks.window)), now - ks.window)
                == Filter(Bucket(s.limiter, StorageKey(key.text, ks.window)), now - ks.window) + Repeat(now, n)
    ensures n == Served(s, key, now)
    ensures Counted(after, s.queue, key, now) == Counted(s.limiter, s.queue, key, now) + Repeat(now, n)
  {
    hide Filter, Bucket, StorageKey, Repeat, Survivors, FreeSlots;
  }

  lemma PassKeyResolves(s: Both, maxBuckets: nat, key: QueueKey, now: int)
    requires key in s.queue.keys
    ensures var ks := s.queue.keys[key];
            PassKey(s, maxBuckets, key, now).limiter
            == Resolve(s.limiter, maxBuckets, key.text, ks.limit, ks.window, |Survivors(ks.entries, now)|, now).limiter
  {
    hide Resolve, Expired, Survivors, Settle, PutEntries;
  }

  lemma TouchesExtends(q: Queue, r: Queue, key: QueueKey, settled: set<nat>)
    requires OnlyTouches(q, r, key, settled)
    ensures Extends(q, r, [key])
    ensures forall k :: k in q.keys && k != key ==> k in r.keys && r.keys[k] == q.keys[k]
  {
  }

  lemma PassKeyLimiter(s: Both, maxBuckets: nat, key: QueueKey, now: int, other: QueueKey, window: nat)
    requires key in s.queue.keys && other != key
    ensures KeptOrDropped(s.limiter, PassKey(s, maxBuckets, key, now).limiter, StorageKey(other.text, window))
  {
    var ks := s.queue.keys[key];
    StorageKeyInjective(key.text, ks.window, other.text, window);
    hide StorageKey;
    OtherKeyKeepsOrDrops(s.limiter, maxBuckets, key.text, ks.limit, ks.window, |Survivors(ks.entries, now)|, now,
                         StorageKey(other.text, window));
  }

  lemma {:induction false} PassKeysLimiter(s: Both, maxBuckets: nat, keys: seq<QueueKey>, now: int, other: QueueKey,
                                           window: nat)
    requires Distinct(keys) && other !in keys && forall key :: key in keys ==> key in s.queue.keys
    ensures KeptOrDropped(s.limiter, PassKeys(s, maxBuckets, keys, now).limiter, StorageKey(other.text, window))
    decreases |keys|
  {
    hide PassKey, StorageKey, Bucket;
    if keys != [] {
      assert keys == [keys[0]] + keys[1..];
      OthersStay(s, maxBuckets, keys, now);
      PassKeyLimiter(s, maxBuckets, keys[0], now, other, window);
      PassKeysLimiter(PassKey(s, maxBuckets, keys[0], now), maxBuckets, keys[1..], now, other, window);
    }
  }

  lemma {:induction false} PassServesKeys(s: Both, maxBuckets: nat, maxQueueSize: nat, keys: seq<QueueKey>, now: int,
                                          issued: set<nat>)
    requires Distinct(keys) && forall key :: key in keys ==> key in s.queue.keys
    requires Bounded(s.queue, maxQueueSize) && Conserved(s.queue, issued)
    ensures var r := PassKeys(s, maxBuckets, keys, now);
            && Bounded(r.queue, maxQueueSize) && Conserved(r.queue, issued) && Extends(s.queue, r.queue, keys)
            && forall key :: key in keys ==>
                 KeyTurn(s, maxBuckets, key, now, TurnState(s, maxBuckets, keys, key, now), r)
    decreases |keys|
  {
    hide PassKey, KeyTurn, Bounded, Conserved, EntriesOf;
    if keys != [] {
      var first, rest := keys[0], keys[1..];
      var next := PassKey(s, maxBuckets, first, now);
      var r := PassKeys(s, maxBuckets, keys, now);
      OthersStay(s, maxBuckets, keys, now);
      PassKeyExtends(s, maxBuckets, maxQueueSize, first, now, issued);
      PassServesKeys(next, maxBuckets, maxQueueSize, rest, now, issued);
      assert keys == [first] + rest;
      PassKeysLimiter(next, maxBuckets, rest, now, first, s.queue.keys[first].window);
      TurnFirst(s, maxBuckets, first, now, next, r, rest);
      forall key | key in keys
        ensures KeyTurn(s, maxBuckets, key, now, TurnState(s, maxBuckets, keys, key, now), r)
      {
        if key != first {
          assert key in rest;
          PassKeyLimiter(s, maxBuckets, first, now, key, s.queue.keys[key].window);
          TurnLater(s, next, maxBuckets, key, now, TurnState(next, maxBuckets, rest, key, now), r);
        }
      }
    }
  }

  lemma TurnFirst(s: Both, maxBuckets: nat, key: QueueKey, now: int, next: Both, r: Both, rest: seq<QueueKey>)
    requires key in s.queue.keys && key !in rest && next == PassKey(s, maxBuckets, key, now)
    requires KeyTurn(s, maxBuckets, key, now, s, next)
    requires Extends(next.queue, r.queue, rest)
    requires KeptOrDropped(next.limiter, r.limiter, StorageKey(key.text, s.queue.keys[key].window))
    ensures KeyTurn(s, maxBuckets, key, now, s, r)
  {
    hide PassKey, Served, KeyServed, StorageKey, Bucket, Counted, Repeat, KeptOrDropped;
    KeyServedKept(s.queue.keys[key].entries, now, Served(s, key, now), next.queue, r.queue, key, rest);
  }

  lemma TurnLater(s: Both, next: Both, maxBuckets: nat, key: QueueKey, now: int, at: Both, r: Both)
    requires key in s.queue.keys && key in next.queue.keys && s.queue.keys[key] == next.queue.keys[key]
    requires KeptOrDropped(s.limiter, next.limiter, StorageKey(key.text, s.queue.keys[key].window))
    requires KeyTurn(next, maxBuckets, key, now, at, r)
    ensures KeyTurn(s, maxBuckets, key, now, at, r)
  {
    hide PassKey, Served, KeyServed, StorageKey, Bucket, Filter, Repeat;
  }

  // ---------------------------------------------------------------------------------------------
  // A pass that evicts nothing

  /** How many buckets the map may come to hold while only this bucket is written to. */
  function Extent(lim: State, sk: BucketKey): nat {
    |lim.order| + if sk in lim.buckets then 0 else 1
  }

  lemma PrunedExtent(lim: State, sk: BucketKey, cutoff: int)
    requires Consistent(lim)
    ensures var r := Pruned(lim, sk, cutoff);
            Consistent(r) && Extent(r, sk) == Extent(lim, sk) && forall k :: k != sk ==> Bucket(r, k) == Bucket(lim, k)
  {
    PruneConsistent(lim, sk, cutoff);
    DeleteConsistent(lim, sk);
    hide Consistent, Filter, Without;
  }

  lemma CheckExtent(lim: State, maxBuckets: nat, key: string, limit: int, window: nat, now: int)
    requires Consistent(lim)
    ensures var sk, r := StorageKey(key, window), Apply(lim, maxBuckets, CheckOp(key, limit, window, now, now));
            Consistent(r) && Extent(r, sk) == Extent(lim, sk) && forall k :: k != sk ==> Bucket(r, k) == Bucket(lim, k)
  {
    PrunedExtent(lim, StorageKey(key, window), now - window);
    hide Consistent, Pruned, Extent, StorageKey, Bucket;
  }

  lemma ConsumeExtent(lim: State, maxBuckets: nat, key: string, limit: int, window: nat, now: int)
    requires Consistent(lim) && Extent(lim, StorageKey(key, window)) <= maxBuckets
    ensures var sk, r := StorageKey(key, window), Apply(lim, maxBuckets, ConsumeOp(key, limit, window, now, now));
            Consistent(r) && Extent(r, sk) == Extent(lim, sk) && forall k :: k != sk ==> Bucket(r, k) == Bucket(lim, k)
  {
    hide Consistent, Pruned, StorageKey, Filter, Evicted, Extent, Bucket, SlidingWindow.Set;
    var sk := StorageKey(key, window);
    var pruned, valid := Pruned(lim, sk, now - window), Filter(Bucket(lim, sk), now - window);
    PrunedExtent(lim, sk, now - window);
    SetExtent(pruned, maxBuckets, sk, valid + [now]);
  }

  lemma SetExtent(lim: State, maxBuckets: nat, sk: BucketKey, stamps: seq<int>)
    requires Consistent(lim) && Extent(lim, sk) <= maxBuckets
    ensures sk !in lim.buckets ==> Evicted(lim, maxBuckets) == lim
    ensures var r := SlidingWindow.Set(lim, sk, stamps);
            Consistent(r) && Extent(r, sk) == Extent(lim, sk) && forall k :: k != sk ==> Bucket(r, k) == Bucket(lim, k)
  {
    SetConsistent(lim, sk, stamps);
    hide Consistent;
  }

  lemma {:induction false} ResolveExtent(lim: State, maxBuckets: nat, key: string, limit: int, window: nat,
                                         waiting: nat, now: int)
    requires Consistent(lim) && Extent(lim, StorageKey(key, window)) <= maxBuckets
    ensures var sk, r := StorageKey(key, window), Resolve(lim, maxBuckets, key, limit, window, waiting, now).limiter;
            Consistent(r) && Extent(r, sk) == Extent(lim, sk) && forall k :: k != sk ==> Bucket(r, k) == Bucket(lim, k)
    decreases waiting
  {
    hide Consistent, Apply, AnswerOf, Extent, StorageKey, Bucket;
    if waiting > 0 {
      var checked := Apply(lim, maxBuckets, CheckOp(key, limit, window, now, now));
      CheckExtent(lim, maxBuckets, key, limit, window, now);
      ConsumeExtent(checked, maxBuckets, key, limit, window, now);
      ResolveExtent(Apply(checked, maxBuckets, ConsumeOp(key, limit, window, now, now)), maxBuckets, key, limit, window,
                    waiting - 1, now);
    }
  }

  /** Below the cap a turn adds at most one bucket and leaves those of all other keys alone. */
  lemma PassKeyBelowCap(s: Both, maxBuckets: nat, key: QueueKey, now: int)
    requires key in s.queue.keys && Consistent(s.limiter) && |s.limiter.order| < maxBuckets
    ensures var r := PassKey(s, maxBuckets, key, now).limiter;
            && Consistent(r) && |r.order| <= |s.limiter.order| + 1
            && forall k :: k != KeyBucket(s.queue, key) ==> Bucket(r, k) == Bucket(s.limiter, k)
  {
    var ks := s.queue.keys[key];
    ResolveExtent(s.limiter, maxBuckets, key.text, ks.limit, ks.window, |Survivors(ks.entries, now)|, now);
    hide Consistent, Resolve, Survivors, Expired, Settle, PutEntries, StorageKey, Bucket;
  }

  ghost predicate RoomFor(lim: State, maxBuckets: nat, keys: seq<QueueKey>) {
    Consistent(lim) && |lim.order| + |keys| <= maxBuckets
  }

  lemma {:induction false} PassBelowCap(s: Both, maxBuckets: nat, keys: seq<QueueKey>, now: int, other: QueueKey,
                                        window: nat)
    requires Distinct(keys) && other !in keys && forall key :: key in keys ==> key in s.queue.keys
    requires RoomFor(s.limiter, maxBuckets, keys)
    ensures Bucket(PassKeys(s, maxBuckets, keys, now).limiter, StorageKey(other.text, window))
            == Bucket(s.limiter, StorageKey(other.text, window))
    decreases |keys|
  {
    hide PassKey, StorageKey, Bucket, Consistent;
    if keys != [] {
      var first := keys[0];
      assert keys == [first] + keys[1..];
      OthersStay(s, maxBuckets, keys, now);
      StorageKeyInjective(first.text, s.queue.keys[first].window, other.text, window);
      PassKeyBelowCap(s, maxBuckets, first, now);
      PassBelowCap(PassKey(s, maxBuckets, first, now), maxBuckets, keys[1..], now, other, window);
    }
  }

  /** The turn of a key, counted by the slots that were free when the pass began. */
  ghost predicate KeyTurnExact(s: Both, key: QueueKey, now: int, r: Both) {
    && key in s.queue.keys
    && KeyServed(s.queue.keys[key].entries, now, Served(s, key, now), r.queue, key)
    && Counted(r.limiter, s.queue, key, now) == Counted(s.limiter, s.queue, key, now) + Repeat(now, Served(s, key, now))
  }

  /** With room in the map of buckets for all its keys, a pass serves each of them as if it were alone. */
  lemma {:induction false} PassServesExactly(s: Both, maxBuckets: nat, maxQueueSize: nat, keys: seq<QueueKey>, now: int,
                                             issued: set<nat>)
    requires Distinct(keys) && forall key :: key in keys ==> key in s.queue.keys
    requires Bounded(s.queue, maxQueueSize) && Conserved(s.queue, issued) && RoomFor(s.limiter, maxBuckets, keys)
    ensures forall key :: key in keys ==> KeyTurnExact(s, key, now, PassKeys(s, maxBuckets, keys, now))
    decreases |keys|
  {
    hide PassKey, KeyTurnExact, KeyTurn, Bounded, Conserved, EntriesOf, Consistent, StorageKey, Bucket;
    if keys != [] {
      var first, rest := keys[0], keys[1..];
      var next := PassKey(s, maxBuckets, first, now);
      var r := PassKeys(s, maxBuckets, keys, now);
      assert keys == [first] + rest;
      OthersStay(s, maxBuckets, keys, now);
      PassKeyExtends(s, maxBuckets, maxQueueSize, first, now, issued);
      PassKeyBelowCap(s, maxBuckets, first, now);
      PassServesExactly(next, maxBuckets, maxQueueSize, rest, now, issued);
      PassServesKeys(next, maxBuckets, maxQueueSize, rest, now, issued);
      PassBelowCap(next, maxBuckets, rest, now, first, s.queue.keys[first].window);
      ExactFirst(s, maxBuckets, first, now, next, r, rest);
      forall key | key in keys ensures KeyTurnExact(s, key, now, r) {
        if key != first {
          assert key in rest;
          StorageKeyInjective(first.text, s.queue.keys[first].window, key.text, s.queue.keys[key].window);
          ExactLater(s, next, key, now, r);
        }
      }
    }
  }

  lemma ExactFirst(s: Both, maxBuckets: nat, key: QueueKey, now: int, next: Both, r: Both, rest: seq<QueueKey>)
    requires key in s.queue.keys && key !in rest && next == PassKey(s, maxBuckets, key, now)
    requires KeyTurn(s, maxBuckets, key, now, s, next)
    requires Extends(next.queue, r.queue, rest)
    requires Bucket(r.limiter, StorageKey(key.text, s.queue.keys[key].window))
          == Bucket(next.limiter, StorageKey(key.text, s.queue.keys[key].window))
    ensures KeyTurnExact(s, key, now, r)
  {
    hide PassKey, Served, KeyServed, StorageKey, Bucket, Filter, Repeat, KeptOrDropped;
    KeyServedKept(s.queue.keys[key].entries, now, Served(s, key, now), next.queue, r.queue, key, rest);
  }

  lemma ExactLater(s: Both, next: Both, key: QueueKey, now: int, r: Both)
    requires key in s.queue.keys && key in next.queue.keys && s.queue.keys[key] == next.queue.keys[key]
    requires Bucket(next.limiter, StorageKey(key.text, s.queue.keys[key].window))
          == Bucket(s.limiter, StorageKey(key.text, s.queue.keys[key].window))
    requires KeyTurnExact(next, key, now, r)
    ensures KeyTurnExact(s, key, now, r)
  {
    hide KeyServed, StorageKey, Bucket, Filter, Repeat, Survivors;
  }

  /** The list of polled keys is empty exactly when the timer is off. */
  ghost predicate PollsWhenNeeded(q: Queue) {
    q.polling <==> q.keys != map[]
  }

  ghost predicate Good(q: Queue, maxQueueSize: nat, issued: set<nat>) {
    Bounded(q, maxQueueSize) && Conserved(q, issued) && PollsWhenNeeded(q)
  }

  /** What one timer tick does to every waiting entry. */
  lemma TickServesEveryKey(s: Both, maxBuckets: nat, maxQueueSize: nat, now: int, issued: set<nat>)
    requires Good(s.queue, maxQueueSize, issued)
    ensures var r := ProcessAll(s, maxBuckets, now);
            && Good(r.queue, maxQueueSize, issued)
            && (forall id :: id in s.queue.outcomes ==>
                  id in r.queue.outcomes && r.queue.outcomes[id] == s.queue.outcomes[id])
            && forall key :: key in s.queue.keys ==>
                 key in s.queue.order
                 && KeyTurn(s, maxBuckets, key, now, TurnState(s, maxBuckets, s.queue.order, key, now), r)
  {
    PassServesKeys(s, maxBuckets, maxQueueSize, s.queue.order, now, issued);
    var p := PassKeys(s, maxBuckets, s.queue.order, now);
    var r := ProcessAll(s, maxBuckets, now);
    NoKeysNoOrder(s.queue, maxQueueSize);
    hide PassKeys, Distinct, KeyTurn, TurnState;
    PollingAside(p.queue, r.queue, maxQueueSize, issued);
    forall key | key in s.queue.keys
      ensures KeyTurn(s, maxBuckets, key, now, TurnState(s, maxBuckets, s.queue.order, key, now), r)
    {
      PollingAsideTurn(s, maxBuckets, key, now, TurnState(s, maxBuckets, s.queue.order, key, now), p, r);
    }
    NothingPassed(s, p.queue);
  }

  lemma TickGood(s: Both, maxBuckets: nat, maxQueueSize: nat, now: int, issued: set<nat>)
    requires Good(s.queue, maxQueueSize, issued)
    ensures Good(ProcessAll(s, maxBuckets, now).queue, maxQueueSize, issued)
  {
    TickServesEveryKey(s, maxBuckets, maxQueueSize, now, issued);
    hide KeyTurn, TurnState, Good, ProcessAll;
  }

  /** A pass never moves a list within the order, and a list keeps the limit and the window it was created with. */
  ghost predicate KeepsPlaces(q: Queue, r: Queue) {
    && IsSubsequence(r.order, q.order)
    && forall key :: key in r.keys ==>
         key in q.keys && r.keys[key].limit == q.keys[key].limit && r.keys[key].window == q.keys[key].window
  }

  lemma PutKeepsPlaces(q: Queue, key: QueueKey, entries: seq<Entry>)
    requires key in q.keys
    ensures KeepsPlaces(q, PutEntries(q, key, entries))
  {
    WithoutSubsequence(q.order, key);
    SubsequenceOfSelf(q.order);
    hide IsSubsequence, Without;
  }

  lemma PassKeyKeepsPlaces(s: Both, maxBuckets: nat, key: QueueKey, now: int)
    requires key in s.queue.keys
    ensures KeepsPlaces(s.queue, PassKey(s, maxBuckets, key, now).queue)
  {
    PassKeyShape(s, maxBuckets, key, now);
    hide PassKey, Served, Expired, Survivors, Settle, IsSubsequence, PutEntries;
    PutKeepsPlaces(s.queue, key, Survivors(s.queue.keys[key].entries, now)[Served(s, key, now)..]);
  }

  lemma {:induction false} PassKeepsPlaces(s: Both, maxBuckets: nat, keys: seq<QueueKey>, now: int)
    requires Distinct(keys) && forall key :: key in keys ==> key in s.queue.keys
    ensures KeepsPlaces(s.queue, PassKeys(s, maxBuckets, keys, now).queue)
    decreases |keys|
  {
    SubsequenceOfSelf(s.queue.order);
    hide PassKey, IsSubsequence;
    if keys != [] {
      var next := PassKey(s, maxBuckets, keys[0], now);
      OthersStay(s, maxBuckets, keys, now);
      PassKeyKeepsPlaces(s, maxBuckets, keys[0], now);
      PassKeepsPlaces(next, maxBuckets, keys[1..], now);
      SubsequenceTwice(PassKeys(s, maxBuckets, keys, now).queue.order, next.queue.order, s.queue.order);
    }
  }

  lemma TickKeepsPlaces(s: Both, maxBuckets: nat, maxQueueSize: nat, now: int, issued: set<nat>)
    requires Good(s.queue, maxQueueSize, issued)
    ensures KeepsPlaces(s.queue, ProcessAll(s, maxBuckets, now).queue)
  {
    PassKeepsPlaces(s, maxBuckets, s.queue.order, now);
    hide IsSubsequence, PassKeys;
  }

  /** And with room for all waiting keys in the map of buckets, exactly how many entries of each and how many slots. */
  lemma TickServesExactly(s: Both, maxBuckets: nat, maxQueueSize: nat, now: int, issued: set<nat>)
    requires Good(s.queue, maxQueueSize, issued) && RoomFor(s.limiter, maxBuckets, s.queue.order)
    ensures forall key :: key in s.queue.keys ==> KeyTurnExact(s, key, now, ProcessAll(s, maxBuckets, now))
  {
    PassServesExactly(s, maxBuckets, maxQueueSize, s.queue.order, now, issued);
    var p := PassKeys(s, maxBuckets, s.queue.order, now);
    NoKeysNoOrder(s.queue, maxQueueSize);
    hide PassKeys, Distinct, KeyTurnExact;
    forall key | key in s.queue.keys ensures KeyTurnExact(s, key, now, ProcessAll(s, maxBuckets, now)) {
      PollingAsideExact(s, key, now, p, ProcessAll(s, maxBuckets, now));
    }
  }

  lemma NoKeysNoOrder(q: Queue, maxQueueSize: nat)
    requires Bounded(q, maxQueueSize)
    ensures forall key :: key in q.keys <==> key in q.order
  {
  }

  /** Nothing is put on the list by a pass. */
  lemma NothingPassed(s: Both, p: Queue)
    requires Extends(s.queue, p, s.queue.order) && forall key :: key in s.queue.order <==> key in s.queue.keys
    requires forall key :: key in p.keys ==> |p.keys[key].entries| > 0
    ensures s.queue.keys == map[] ==> p.keys == map[]
  {
    if s.queue.keys == map[] {
      forall key ensures key !in p.keys {
        assert EntriesOf(p, key) == EntriesOf(s.queue, key) == [];
      }
    }
  }

  lemma PollingAside(p: Queue, r: Queue, maxQueueSize: nat, issued: set<nat>)
    requires r.order == p.order && r.keys == p.keys && r.outcomes == p.outcomes
    requires Bounded(p, maxQueueSize) && Conserved(p, issued)
    ensures Bounded(r, maxQueueSize) && Conserved(r, issued)
  {
    hide Distinct, DistinctIds, Ids;
    forall id ensures Waiting(p, id) <==> Waiting(r, id) {
    }
  }

  lemma PollingAsideTurn(s: Both, maxBuckets: nat, key: QueueKey, now: int, at: Both, p: Both, r: Both)
    requires r.queue.keys == p.queue.keys && r.queue.outcomes == p.queue.outcomes && r.limiter == p.limiter
    requires KeyTurn(s, maxBuckets, key, now, at, p)
    ensures KeyTurn(s, maxBuckets, key, now, at, r)
  {
    hide PassKey, Served, StorageKey, Bucket, Counted, Repeat, Expired, Survivors, Ids, KeptOrDropped;
  }

  lemma PollingAsideExact(s: Both, key: QueueKey, now: int, p: Both, r: Both)
    requires r.queue.keys == p.queue.keys && r.queue.outcomes == p.queue.outcomes && r.limiter == p.limiter
    requires KeyTurnExact(s, key, now, p)
    ensures KeyTurnExact(s, key, now, r)
  {
    hide Served, StorageKey, Bucket, Counted, Repeat, Expired, Survivors, Ids;
  }

  // ---------------------------------------------------------------------------------------------
  // Entering and stopping

  function Enqueued(q: Queue, enabled: bool, maxQueueSize: nat, key: QueueKey, limit: int, window: nat,
                    entry: Entry): Queue {
    if !enabled then q.(outcomes := q.outcomes[entry.id := Disabled])
    else if |EntriesOf(q, key)| >= maxQueueSize then q.(outcomes := q.outcomes[entry.id := QueueFull])
    else if key in q.keys then
      q.(keys := q.keys[key := q.keys[key].(entries := q.keys[key].entries + [entry])], polling := true)
    else q.(order := q.order + [key], keys := q.keys[key := KeyState([entry], limit, window)], polling := true)
  }

  /**
   What one enqueue does. A disabled queue and a full list refuse the entry, each in its own way, and nothing else
   changes. Otherwise the entry waits at the end of its list, which keeps the limit and the window of its first
   caller, and comes last in the order of the keys when it is new; no outcome and no other list changes.
   */
  ghost predicate Entered(q: Queue, r: Queue, enabled: bool, maxQueueSize: nat, key: QueueKey, limit: int, window: nat,
                          entry: Entry) {
    if !enabled || |EntriesOf(q, key)| >= maxQueueSize then
      && r.outcomes == q.outcomes[entry.id := if enabled then QueueFull else Disabled]
      && r.keys == q.keys && r.order == q.order && r.polling == q.polling
    else
      && r.outcomes == q.outcomes && r.polling
      && key in r.keys && r.keys[key].entries == EntriesOf(q, key) + [entry]
      && (if key in q.keys then
            r.keys[key].limit == q.keys[key].limit && r.keys[key].window == q.keys[key].window && r.order == q.order
          else
            r.keys[key].limit == limit && r.keys[key].window == window && r.order == q.order + [key])
      && (forall k :: k != key ==> (k in r.keys <==> k in q.keys))
      && (forall k :: k in q.keys && k != key ==> r.keys[k] == q.keys[k])
  }

  /** A new entry waits at the end of its list, or is rejected at once; nothing else changes hands. */
  lemma EnqueueGood(q: Queue, enabled: bool, maxQueueSize: nat, key: QueueKey, limit: int, window: nat, entry: Entry,
                    issued: set<nat>)
    requires Good(q, maxQueueSize, issued) && entry.id !in issued
    ensures var r := Enqueued(q, enabled, maxQueueSize, key, limit, window, entry);
            && Good(r, maxQueueSize, issued + {entry.id})
            && (entry.id !in r.outcomes <==> enabled && |EntriesOf(q, key)| < maxQueueSize)
            && Entered(q, r, enabled, maxQueueSize, key, limit, window, entry)
  {
    EnqueueEnters(q, enabled, maxQueueSize, key, limit, window, entry);
    if enabled && |EntriesOf(q, key)| < maxQueueSize {
      EnqueueAccepts(q, maxQueueSize, key, limit, window, entry, issued);
      hide Enqueued, Good;
      assert entry.id !in q.outcomes by { NewIsUnsettled(q, maxQueueSize, entry.id, issued); }
    } else {
      hide Enqueued;
      EnqueueRefuses(q, Enqueued(q, enabled, maxQueueSize, key, limit, window, entry), maxQueueSize, entry.id,
                     if enabled then QueueFull else Disabled, issued);
    }
  }

  lemma EnqueueEnters(q: Queue, enabled: bool, maxQueueSize: nat, key: QueueKey, limit: int, window: nat, entry: Entry)
    ensures Entered(q, Enqueued(q, enabled, maxQueueSize, key, limit, window, entry), enabled, maxQueueSize, key, limit,
                    window, entry)
  {
  }

  lemma NewIsUnsettled(q: Queue, maxQueueSize: nat, id: nat, issued: set<nat>)
    requires Good(q, maxQueueSize, issued) && id !in issued
    ensures id !in q.outcomes
  {
    hide Ids, DistinctIds, Distinct;
  }

  lemma EnqueueRefuses(q: Queue, r: Queue, maxQueueSize: nat, id: nat, outcome: Outcome, issued: set<nat>)
    requires Good(q, maxQueueSize, issued) && id !in issued
    requires r == q.(outcomes := q.outcomes[id := outcome])
    ensures Good(r, maxQueueSize, issued + {id})
  {
    hide Ids, DistinctIds, Distinct;
    assert forall i :: Waiting(q, i) <==> Waiting(r, i);
    assert !Waiting(q, id);
  }

  lemma EnqueueAccepts(q: Queue, maxQueueSize: nat, key: QueueKey, limit: int, window: nat, entry: Entry,
                       issued: set<nat>)
    requires Good(q, maxQueueSize, issued) && entry.id !in issued && |EntriesOf(q, key)| < maxQueueSize
    ensures Good(Enqueued(q, true, maxQueueSize, key, limit, window, entry), maxQueueSize, issued + {entry.id})
  {
    var r := Enqueued(q, true, maxQueueSize, key, limit, window, entry);
    AppendedIds(EntriesOf(q, key), entry);
    assert !Waiting(q, entry.id);
    EnqueuedBounded(q, maxQueueSize, key, limit, window, entry);
    hide Ids, DistinctIds, Distinct, Conserved, Waiting, Bounded;
    assert key in r.keys && r.keys[key].entries == EntriesOf(q, key) + [entry];
    EnqueuedConserved(q, r, key, entry, issued);
  }

  lemma EnqueuedBounded(q: Queue, maxQueueSize: nat, key: QueueKey, limit: int, window: nat, entry: Entry)
    requires Bounded(q, maxQueueSize) && |EntriesOf(q, key)| < maxQueueSize
    ensures var r := Enqueued(q, true, maxQueueSize, key, limit, window, entry);
            Bounded(r, maxQueueSize) && PollsWhenNeeded(r)
  {
    if key !in q.keys { DistinctSnoc(q.order, key); }
    hide Distinct;
    var r := Enqueued(q, true, maxQueueSize, key, limit, window, entry);
    assert key in r.keys;
  }

  lemma AppendedIds(entries: seq<Entry>, entry: Entry)
    ensures Ids(entries + [entry]) == Ids(entries) + {entry.id}
    ensures DistinctIds(entries) && entry.id !in Ids(entries) ==> DistinctIds(entries + [entry])
  {
    var r := entries + [entry];
    forall id ensures id in Ids(r) <==> id in Ids(entries) || id == entry.id {
      if id in Ids(entries) {
        var i :| 0 <= i < |entries| && entries[i].id == id;
        assert r[i].id == id;
      }
      assert r[|entries|].id == entry.id;
    }
    if DistinctIds(entries) && entry.id !in Ids(entries) {
      forall i, j | 0 <= i < j < |r| ensures r[i].id != r[j].id {
        assert entries[i].id in Ids(entries);
      }
    }
  }

  lemma EnqueuedConserved(q: Queue, r: Queue, key: QueueKey, entry: Entry, issued: set<nat>)
    requires Conserved(q, issued) && entry.id !in issued && !Waiting(q, entry.id)
    requires key in r.keys && r.outcomes == q.outcomes
    requires Ids(r.keys[key].entries) == Ids(EntriesOf(q, key)) + {entry.id}
    requires DistinctIds(EntriesOf(q, key)) && entry.id !in Ids(EntriesOf(q, key)) ==> DistinctIds(r.keys[key].entries)
    requires forall k :: k != key ==> (k in r.keys <==> k in q.keys)
    requires forall k :: k in q.keys && k != key ==> r.keys[k] == q.keys[k]
    ensures Conserved(r, issued + {entry.id})
  {
    NothingWaiting([]);
    DistinctNothing();
    hide Ids, DistinctIds;
    assert forall k :: k in q.keys ==> entry.id !in Ids(q.keys[k].entries);
    forall id ensures id in issued + {entry.id} <==> id in r.outcomes || Waiting(r, id) {
      if Waiting(q, id) {
        var k :| k in q.keys && id in Ids(q.keys[k].entries);
        assert id in Ids(r.keys[k].entries);
      }
      if Waiting(r, id) {
        var k :| k in r.keys && id in Ids(r.keys[k].entries);
        if id != entry.id { assert k in q.keys && id in Ids(q.keys[k].entries); }
      }
      assert entry.id in Ids(r.keys[key].entries);
    }
  }

  lemma DistinctNothing()
    ensures DistinctIds([])
  {
  }

  function SettleKeys(q: Queue, keys: seq<QueueKey>): map<nat, Outcome>
    requires forall key :: key in keys ==> key in q.keys
  {
    if keys == [] then q.outcomes
    else
      var n := |keys| - 1;
      Settle(SettleKeys(q, keys[..n]), q.keys[keys[n]].entries, Stopped)
  }

  function AfterStop(q: Queue): Queue
    requires forall key :: key in q.order ==> key in q.keys
  {
    Queue([], map[], SettleKeys(q, q.order), false)
  }

  lemma SettleNoKeys(q: Queue)
    ensures SettleKeys(q, []) == q.outcomes
  {
  }

  lemma SettleNextKey(q: Queue, keys: seq<QueueKey>, i: nat)
    requires i < |keys| && forall key :: key in keys ==> key in q.keys
    ensures SettleKeys(q, keys[..i + 1]) == Settle(SettleKeys(q, keys[..i]), q.keys[keys[i]].entries, Stopped)
  {
    hide Settle;
    assert keys[..i + 1][..i] == keys[..i];
  }

  lemma {:induction false} SettleKeysOutcomes(q: Queue, keys: seq<QueueKey>, issued: set<nat>)
    requires Conserved(q, issued) && Distinct(keys) && forall key :: key in keys ==> key in q.keys
    ensures var r := SettleKeys(q, keys);
            && (forall id :: id in r <==>
                  id in q.outcomes || exists key :: key in keys && id in Ids(q.keys[key].entries))
            && (forall id :: id in q.outcomes ==> r[id] == q.outcomes[id])
            && (forall id :: id in r && id !in q.outcomes ==> r[id] == Stopped)
    decreases |keys|
  {
    if keys != [] {
      var n := |keys| - 1;
      var before := SettleKeys(q, keys[..n]);
      SettleKeysOutcomes(q, keys[..n], issued);
      SettleOutcomes(before, q.keys[keys[n]].entries, Stopped);
      hide Settle, DistinctIds, Ids;
      assert keys == keys[..n] + [keys[n]];
      forall id
        ensures id in SettleKeys(q, keys) <==>
                  id in q.outcomes || exists key :: key in keys && id in Ids(q.keys[key].entries)
      {
      }
    }
  }

  /** Stopping leaves nobody waiting: every entry that was is rejected as stopped, and no other outcome changes. */
  lemma StopRejectsAll(q: Queue, maxQueueSize: nat, issued: set<nat>)
    requires Good(q, maxQueueSize, issued)
    ensures Good(AfterStop(q), maxQueueSize, issued)
    ensures forall id :: id in issued ==> id in AfterStop(q).outcomes
    ensures forall id :: id in issued ==>
              AfterStop(q).outcomes[id] == (if id in q.outcomes then q.outcomes[id] else Stopped)
  {
    SettleKeysOutcomes(q, q.order, issued);
    hide SettleKeys, Ids, DistinctIds, Distinct;
    EveryoneOnAList(q, maxQueueSize, issued);
    var r := AfterStop(q);
    assert r.order == [] && r.keys == map[] && !r.polling;
    hide AfterStop, Bounded, Conserved, Waiting;
    NobodyWaits(r, maxQueueSize, issued);
  }

  lemma EveryoneOnAList(q: Queue, maxQueueSize: nat, issued: set<nat>)
    requires Bounded(q, maxQueueSize) && Conserved(q, issued)
    ensures forall id :: id in issued <==>
              id in q.outcomes || exists key :: key in q.order && id in Ids(q.keys[key].entries)
  {
    hide Ids, DistinctIds, Distinct;
    forall id
      ensures id in issued <==> id in q.outcomes || exists key :: key in q.order && id in Ids(q.keys[key].entries)
    {
      if Waiting(q, id) {
        var key :| key in q.keys && id in Ids(q.keys[key].entries);
        assert key in q.order;
      }
    }
  }

  lemma NobodyWaits(r: Queue, maxQueueSize: nat, issued: set<nat>)
    requires r.order == [] && r.keys == map[] && !r.polling
    requires forall id :: id in issued <==> id in r.outcomes
    ensures Good(r, maxQueueSize, issued)
  {
  }

  // ---------------------------------------------------------------------------------------------
  // Runs

  /** `Elsewhere` is any other use of the shared limiter. */
  datatype QueueEvent =
    | Enter(key: QueueKey, limit: int, window: nat, entry: Entry)
    | Tick(now: int)
    | Halt
    | Elsewhere(op: Op)

  datatype QueueRun = Opened | Followed(past: QueueRun, event: QueueEvent)

  function Issued(run: QueueRun): set<nat> {
    match run
    case Opened => {}
    case Followed(past, event) => if event.Enter? then Issued(past) + {event.entry.id} else Issued(past)
  }

  /** Every entry is a new promise. */
  predicate NewIds(run: QueueRun) {
    match run
    case Opened => true
    case Followed(past, event) => NewIds(past) && (event.Enter? ==> event.entry.id !in Issued(past))
  }

  ghost function AfterRun(run: QueueRun, enabled: bool, maxBuckets: nat, maxQueueSize: nat): (r: Both)
    requires NewIds(run)
    ensures Good(r.queue, maxQueueSize, Issued(run))
  {
    hide Good, Enqueued, ProcessAll, AfterStop;
    match run
    case Opened =>
      NobodyWaits(Queue([], map[], map[], false), maxQueueSize, {});
      Both(Queue([], map[], map[], false), EMPTY)
    case Followed(past, event) =>
      var s := AfterRun(past, enabled, maxBuckets, maxQueueSize);
      InGoodShape(s.queue, maxQueueSize, Issued(past));
      match event
      case Enter(key, limit, window, entry) =>
        EnqueueGood(s.queue, enabled, maxQueueSize, key, limit, window, entry, Issued(past));
        s.(queue := Enqueued(s.queue, enabled, maxQueueSize, key, limit, window, entry))
      case Tick(now) =>
        TickGood(s, maxBuckets, maxQueueSize, now, Issued(past));
        ProcessAll(s, maxBuckets, now)
      case Halt =>
        StopRejectsAll(s.queue, maxQueueSize, Issued(past));
        s.(queue := AfterStop(s.queue))
      case Elsewhere(op) => s.(limiter := Apply(s.limiter, maxBuckets, op))
  }

  lemma InGoodShape(q: Queue, maxQueueSize: nat, issued: set<nat>)
    requires Good(q, maxQueueSize, issued)
    ensures Distinct(q.order) && forall key :: key in q.order ==> key in q.keys
  {
  }

  /** In every run each entry is exactly one of waiting and settled, and no list is longer than allowed. */
  lemma EveryEntryAccountedFor(run: QueueRun, enabled: bool, maxBuckets: nat, maxQueueSize: nat, id: nat, key: QueueKey)
    requires NewIds(run)
    ensures var q := AfterRun(run, enabled, maxBuckets, maxQueueSize).queue;
            && (id in Issued(run) <==> (id in q.outcomes || Waiting(q, id)))
            && !(id in q.outcomes && Waiting(q, id))
            && |EntriesOf(q, key)| <= maxQueueSize
            && (q.polling <==> exists k :: k in q.keys)
  {
    hide AfterRun, Ids, DistinctIds, Distinct;
    var q := AfterRun(run, enabled, maxBuckets, maxQueueSize).queue;
    if Waiting(q, id) {
      var k :| k in q.keys && id in Ids(q.keys[k].entries);
    }
    SomeKey(q.keys);
  }

  /** An unexpired entry of `key` whose place in the line is among the slots free when the turn of the key comes. */
  ghost predicate TookSlot(s: Both, maxBuckets: nat, key: QueueKey, now: int, id: nat)
    requires Distinct(s.queue.order) && forall k :: k in s.queue.order ==> k in s.queue.keys
  {
    && key in s.queue.order
    && var ks := s.queue.keys[key];
       var alive := Survivors(ks.entries, now);
       var at := TurnState(s, maxBuckets, s.queue.order, key, now);
       exists i :: 0 <= i < |alive| && alive[i].id == id && |Counted(at.limiter, s.queue, key, now)| + i < ks.limit
  }

  ghost predicate Overdue(q: Queue, now: int, id: nat) {
    exists key, i :: key in q.keys && 0 <= i < |q.keys[key].entries|
                     && q.keys[key].entries[i].id == id && q.keys[key].entries[i].deadline <= now
  }

  /** What settles an entry in one step, and how. */
  ghost predicate SettledBy(s: Both, enabled: bool, maxBuckets: nat, maxQueueSize: nat, event: QueueEvent, id: nat,
                            outcome: Outcome)
    requires Distinct(s.queue.order) && forall key :: key in s.queue.order ==> key in s.queue.keys
  {
    match outcome
    case Resolved => event.Tick? && exists key :: TookSlot(s, maxBuckets, key, event.now, id)
    case TimedOut => event.Tick? && Overdue(s.queue, event.now, id)
    case QueueFull => event.Enter? && event.entry.id == id && enabled && |EntriesOf(s.queue, event.key)| >= maxQueueSize
    case Disabled => event.Enter? && event.entry.id == id && !enabled
    case Stopped => event.Halt? && Waiting(s.queue, id)
  }

  /** Some step of the run settles the entry that way. */
  ghost predicate SettledIn(run: QueueRun, enabled: bool, maxBuckets: nat, maxQueueSize: nat, id: nat, outcome: Outcome)
    requires NewIds(run)
  {
    match run
    case Opened => false
    case Followed(past, event) =>
      var s := AfterRun(past, enabled, maxBuckets, maxQueueSize);
      InGoodShape(s.queue, maxQueueSize, Issued(past));
      || SettledIn(past, enabled, maxBuckets, maxQueueSize, id, outcome)
      || SettledBy(s, enabled, maxBuckets, maxQueueSize, event, id, outcome)
  }

  /** What is settled stays, and an entry is newly settled exactly by the step that has a reason for it. */
  ghost predicate SettlesExactly(s: Both, r: Queue, enabled: bool, maxBuckets: nat, maxQueueSize: nat,
                                 event: QueueEvent, id: nat)
    requires Distinct(s.queue.order) && forall key :: key in s.queue.order ==> key in s.queue.keys
  {
    && (id in s.queue.outcomes ==>
          id in r.outcomes && r.outcomes[id] == s.queue.outcomes[id]
          && forall o :: !SettledBy(s, enabled, maxBuckets, maxQueueSize, event, id, o))
    && (id !in s.queue.outcomes ==>
          forall o :: (id in r.outcomes && r.outcomes[id] == o
                       <==> SettledBy(s, enabled, maxBuckets, maxQueueSize, event, id, o)))
  }

  lemma EnterSettles(s: Both, enabled: bool, maxBuckets: nat, maxQueueSize: nat, key: QueueKey, limit: int, window: nat,
                     entry: Entry, issued: set<nat>, id: nat)
    requires Good(s.queue, maxQueueSize, issued) && entry.id !in issued
    requires Distinct(s.queue.order) && forall k :: k in s.queue.order ==> k in s.queue.keys
    ensures SettlesExactly(s, Enqueued(s.queue, enabled, maxQueueSize, key, limit, window, entry), enabled, maxBuckets,
                           maxQueueSize, Enter(key, limit, window, entry), id)
  {
    EnqueueEnters(s.queue, enabled, maxQueueSize, key, limit, window, entry);
    NewIsUnsettled(s.queue, maxQueueSize, entry.id, issued);
    hide Good, Enqueued, Distinct, TookSlot, Overdue, Waiting;
  }

  lemma HaltSettles(s: Both, enabled: bool, maxBuckets: nat, maxQueueSize: nat, issued: set<nat>, id: nat)
    requires Good(s.queue, maxQueueSize, issued)
    requires Distinct(s.queue.order) && forall k :: k in s.queue.order ==> k in s.queue.keys
    ensures SettlesExactly(s, AfterStop(s.queue), enabled, maxBuckets, maxQueueSize, Halt, id)
  {
    StopRejectsAll(s.queue, maxQueueSize, issued);
    GoodPartition(s.queue, maxQueueSize, issued, id);
    GoodPartition(AfterStop(s.queue), maxQueueSize, issued, id);
    hide Good, AfterStop, Distinct, TookSlot, Overdue, Waiting;
  }

  lemma GoodPartition(q: Queue, maxQueueSize: nat, issued: set<nat>, id: nat)
    requires Good(q, maxQueueSize, issued)
    ensures id in issued <==> id in q.outcomes || Waiting(q, id)
    ensures !(id in q.outcomes && Waiting(q, id))
  {
    hide Ids, DistinctIds, Distinct;
    if Waiting(q, id) {
      var key :| key in q.keys && id in Ids(q.keys[key].entries);
    }
  }

  /** What the turn of one key does to one of its entries. */
  lemma TurnSettles(s: Both, maxBuckets: nat, maxQueueSize: nat, now: int, issued: set<nat>, key: QueueKey, i: nat)
    requires Good(s.queue, maxQueueSize, issued) && key in s.queue.keys && i < |s.queue.keys[key].entries|
    requires Distinct(s.queue.order) && forall k :: k in s.queue.order ==> k in s.queue.keys
    ensures key in s.queue.order
    ensures var e := s.queue.keys[key].entries[i];
            var r := ProcessAll(s, maxBuckets, now).queue;
            if e.deadline <= now then e.id in r.outcomes && r.outcomes[e.id] == TimedOut
            else if TookSlot(s, maxBuckets, key, now, e.id) then e.id in r.outcomes && r.outcomes[e.id] == Resolved
            else e.id !in r.outcomes
  {
    TickServesEveryKey(s, maxBuckets, maxQueueSize, now, issued);
    InGoodOrder(s.queue, maxQueueSize, key, issued);
    var r := ProcessAll(s, maxBuckets, now).queue;
    var at := TurnState(s, maxBuckets, s.queue.order, key, now);
    hide Good, ProcessAll, TurnState, Distinct, DistinctIds;
    TurnServes(s, maxBuckets, key, now, at, ProcessAll(s, maxBuckets, now));
    EntrySettles(s.queue.keys[key].entries, now, Served(at, key, now), r, key, i);
    SlotPlaces(s, at, key, now, s.queue.keys[key].entries[i].id);
    if s.queue.keys[key].entries[i].id in Ids(EntriesOf(r, key)) {
      KeyWaits(r, key, s.queue.keys[key].entries[i].id);
      GoodPartition(r, maxQueueSize, issued, s.queue.keys[key].entries[i].id);
    }
  }

  /** The entries that are served are those whose place is among the free slots. */
  lemma SlotPlaces(s: Both, at: Both, key: QueueKey, now: int, id: nat)
    requires key in s.queue.keys && key in at.queue.keys && at.queue.keys[key] == s.queue.keys[key]
    ensures var ks := s.queue.keys[key];
            var alive := Survivors(ks.entries, now);
            && Served(at, key, now) <= |alive|
            && (id in Ids(alive[..Served(at, key, now)])
                <==> exists i :: 0 <= i < |alive| && alive[i].id == id
                                 && |Counted(at.limiter, s.queue, key, now)| + i < ks.limit)
  {
    hide Survivors, Filter, Bucket, StorageKey;
    var ks, n := s.queue.keys[key], Served(at, key, now);
    var alive := Survivors(ks.entries, now);
    assert n == Min(|alive|, Max(0, ks.limit - |Counted(at.limiter, s.queue, key, now)|));
    assert forall i :: 0 <= i < n ==> alive[..n][i] == alive[i];
  }

  lemma KeyWaits(q: Queue, key: QueueKey, id: nat)
    requires id in Ids(EntriesOf(q, key))
    ensures Waiting(q, id)
  {
  }

  lemma TurnServes(s: Both, maxBuckets: nat, key: QueueKey, now: int, at: Both, r: Both)
    requires KeyTurn(s, maxBuckets, key, now, at, r)
    ensures key in at.queue.keys && at.queue.keys[key] == s.queue.keys[key]
    ensures KeyServed(s.queue.keys[key].entries, now, Served(at, key, now), r.queue, key)
  {
    hide PassKey, Served, KeyServed, Counted, KeyBucket, Repeat, KeptOrDropped;
  }

  /** An entry of a served list is rejected, resolved or kept. */
  lemma EntrySettles(entries: seq<Entry>, now: int, n: nat, q: Queue, key: QueueKey, i: nat)
    requires DistinctIds(entries) && i < |entries| && KeyServed(entries, now, n, q, key)
    ensures n <= |Survivors(entries, now)|
    ensures var e := entries[i];
            if e.deadline <= now then
              && e.id in q.outcomes && q.outcomes[e.id] == TimedOut
              && e.id !in Ids(Survivors(entries, now)[..n])
            else if e.id in Ids(Survivors(entries, now)[..n]) then e.id in q.outcomes && q.outcomes[e.id] == Resolved
            else e.id in Ids(EntriesOf(q, key))
  {
    var e, dead, alive := entries[i], Expired(entries, now), Survivors(entries, now);
    DividesEntries(entries, now);
    SplitList(entries, now, n);
    CutIds(alive, n);
    InIds(dead, e);
    InIds(alive, e);
    hide Ids, DistinctIds, Expired, Survivors, EntriesOf;
  }

  lemma InIds(entries: seq<Entry>, e: Entry)
    ensures e in entries ==> e.id in Ids(entries)
  {
  }

  lemma TickSettles(s: Both, enabled: bool, maxBuckets: nat, maxQueueSize: nat, now: int, issued: set<nat>, id: nat)
    requires Good(s.queue, maxQueueSize, issued)
    requires Distinct(s.queue.order) && forall k :: k in s.queue.order ==> k in s.queue.keys
    ensures SettlesExactly(s, ProcessAll(s, maxBuckets, now).queue, enabled, maxBuckets, maxQueueSize, Tick(now), id)
  {
    TickServesEveryKey(s, maxBuckets, maxQueueSize, now, issued);
    var r := ProcessAll(s, maxBuckets, now).queue;
    hide Good, ProcessAll, TurnState, KeyTurn, Distinct, TookSlot, Ids, Survivors, Counted;
    GoodPartition(s.queue, maxQueueSize, issued, id);
    GoodPartition(r, maxQueueSize, issued, id);
    if Waiting(s.queue, id) {
      var key, i := PlaceOf(s.queue, maxQueueSize, issued, id);
      TurnSettles(s, maxBuckets, maxQueueSize, now, issued, key, i);
      OnePlace(s, maxBuckets, now, id, key, i);
    } else {
      NoPlace(s, maxBuckets, now, id);
    }
  }

  /** Where a waiting entry waits. */
  lemma PlaceOf(q: Queue, maxQueueSize: nat, issued: set<nat>, id: nat) returns (key: QueueKey, i: nat)
    requires Good(q, maxQueueSize, issued) && Waiting(q, id)
    ensures key in q.keys && i < |q.keys[key].entries| && q.keys[key].entries[i].id == id
    ensures forall k, j :: k in q.keys && 0 <= j < |q.keys[k].entries| && q.keys[k].entries[j].id == id
                           ==> k == key && j == i
  {
    key :| key in q.keys && id in Ids(q.keys[key].entries);
    i :| 0 <= i < |q.keys[key].entries| && q.keys[key].entries[i].id == id;
    forall k, j | k in q.keys && 0 <= j < |q.keys[k].entries| && q.keys[k].entries[j].id == id
      ensures k == key && j == i
    {
      assert id in Ids(q.keys[k].entries);
      assert DistinctIds(q.keys[key].entries);
    }
  }

  lemma OnePlace(s: Both, maxBuckets: nat, now: int, id: nat, key: QueueKey, i: nat)
    requires key in s.queue.keys && i < |s.queue.keys[key].entries| && s.queue.keys[key].entries[i].id == id
    requires forall k, j :: (k in s.queue.keys && 0 <= j < |s.queue.keys[k].entries|
                             && s.queue.keys[k].entries[j].id == id) ==> k == key && j == i
    requires Distinct(s.queue.order) && forall k :: k in s.queue.order ==> k in s.queue.keys
    ensures Overdue(s.queue, now, id) <==> s.queue.keys[key].entries[i].deadline <= now
    ensures (exists k :: TookSlot(s, maxBuckets, k, now, id))
            <==> s.queue.keys[key].entries[i].deadline > now && TookSlot(s, maxBuckets, key, now, id)
  {
    hide Distinct, TurnState, Counted, Survivors;
    forall k | TookSlot(s, maxBuckets, k, now, id)
      ensures k == key && s.queue.keys[key].entries[i].deadline > now
    {
      var entries := s.queue.keys[k].entries;
      DividesMembers(entries, now);
      var alive := Survivors(entries, now);
      var p :| 0 <= p < |alive| && alive[p].id == id;
      assert alive[p] in entries;
    }
  }

  lemma NoPlace(s: Both, maxBuckets: nat, now: int, id: nat)
    requires !Waiting(s.queue, id)
    requires Distinct(s.queue.order) && forall k :: k in s.queue.order ==> k in s.queue.keys
    ensures !Overdue(s.queue, now, id) && forall k :: !TookSlot(s, maxBuckets, k, now, id)
  {
    hide Distinct, TurnState, Counted, Survivors;
    assert forall k :: k in s.queue.keys ==> id !in Ids(s.queue.keys[k].entries);
    forall k | k in s.queue.keys ensures !TookSlot(s, maxBuckets, k, now, id) {
      var entries := s.queue.keys[k].entries;
      DividesMembers(entries, now);
      var alive := Survivors(entries, now);
      forall p | 0 <= p < |alive| ensures alive[p].id != id {
        assert alive[p] in entries;
      }
    }
  }

  /** In every run the outcome of an entry tells which step settled it: a resolved one took a free slot in a tick. */
  lemma {:induction false} OutcomesTellHistory(run: QueueRun, enabled: bool, maxBuckets: nat, maxQueueSize: nat,
                                               id: nat, outcome: Outcome)
    requires NewIds(run)
    ensures var q := AfterRun(run, enabled, maxBuckets, maxQueueSize).queue;
            id in q.outcomes && q.outcomes[id] == outcome
            <==> SettledIn(run, enabled, maxBuckets, maxQueueSize, id, outcome)
  {
    hide SettledBy, Enqueued, ProcessAll, AfterStop, Good, Distinct;
    match run
    case Opened =>
    case Followed(past, event) =>
      var s, issued := AfterRun(past, enabled, maxBuckets, maxQueueSize), Issued(past);
      InGoodShape(s.queue, maxQueueSize, issued);
      OutcomesTellHistory(past, enabled, maxBuckets, maxQueueSize, id, outcome);
      var r := AfterRun(run, enabled, maxBuckets, maxQueueSize);
      match event
      case Enter(key, limit, window, entry) =>
        EnterSettles(s, enabled, maxBuckets, maxQueueSize, key, limit, window, entry, issued, id);
      case Tick(now) => TickSettles(s, enabled, maxBuckets, maxQueueSize, now, issued, id);
      case Halt => HaltSettles(s, enabled, maxBuckets, maxQueueSize, issued, id);
      case Elsewhere(op) => NothingSettles(s, enabled, maxBuckets, maxQueueSize, op, id);
  }

  lemma NothingSettles(s: Both, enabled: bool, maxBuckets: nat, maxQueueSize: nat, op: Op, id: nat)
    requires Distinct(s.queue.order) && forall k :: k in s.queue.order ==> k in s.queue.keys
    ensures SettlesExactly(s, s.queue, enabled, maxBuckets, maxQueueSize, Elsewhere(op), id)
  {
    hide Distinct, TookSlot, Overdue, Waiting;
  }

  lemma SomeKey(keys: map<QueueKey, KeyState>)
    ensures keys == map[] || exists k :: k in keys
  {
    if keys.Keys != {} {
      var k :| k in keys.Keys;
    }
  }

  // ---------------------------------------------------------------------------------------------
  // The class

  class RequestQueue {
    const enabled: bool
    const maxWait: int
    const maxQueueSize: nat
    const limiter: SlidingWindowLimiter
    var order: seq<QueueKey>
    var keys: map<QueueKey, KeyState>
    var outcomes: map<nat, Outcome>
    var polling: bool
    ghost var issued: set<nat>

    constructor (enabled: bool, maxWait: int, maxQueueSize: nat, limiter: SlidingWindowLimiter)
      requires limiter.Valid()
      ensures Valid() && issued == {} && this.limiter == limiter && Value() == Queue([], map[], map[], false)
    {
      this.enabled, this.maxWait, this.maxQueueSize, this.limiter := enabled, maxWait, maxQueueSize, limiter;
      order, keys, outcomes, polling := [], map[], map[], false;
      issued := {};
    }

    function Value(): Queue
      reads this
    {
      Queue(order, keys, outcomes, polling)
    }

    ghost predicate Valid()
      reads this, limiter
    {
      limiter.Valid() && Good(Value(), maxQueueSize, issued)
    }

    method Enqueue(key: QueueKey, limit: int, window: nat, id: nat, now: int)
      requires Valid() && id !in issued
      modifies this
      ensures Valid() && issued == old(issued) + {id}
      ensures Value() == Enqueued(old(Value()), enabled, maxQueueSize, key, limit, window, Entry(id, now + maxWait))
      ensures Entered(old(Value()), Value(), enabled, maxQueueSize, key, limit, window, Entry(id, now + maxWait))
    {
      hide Good, Consistent, Waiting;
      EnqueueGood(Value(), enabled, maxQueueSize, key, limit, window, Entry(id, now + maxWait), issued);
      issued := issued + {id};
      if !enabled {
        outcomes := outcomes[id := Disabled];
        return;
      }
      var current := if key in keys then keys[key].entries else [];
      if |current| >= maxQueueSize {
        outcomes := outcomes[id := QueueFull];
        return;
      }
      var entry := Entry(id, now + maxWait);
      if key in keys {
        keys := keys[key := keys[key].(entries := current + [entry])];
      } else {
        order, keys := order + [key], keys[key := KeyState([entry], limit, window)];
      }
      polling := true;
    }

    /** Rejects the expired entries of a list, walking it by index and cutting them out. */
    method RejectExpired(all: seq<Entry>, now: int) returns (entries: seq<Entry>)
      modifies this`outcomes
      ensures entries == Survivors(all, now)
      ensures outcomes == Settle(old(outcomes), Expired(all, now), TimedOut)
    {
      entries := all;
      var i := 0;
      while i < |entries|
        invariant i <= |entries|
        invariant entries[..i] + Survivors(entries[i..], now) == Survivors(all, now)
        invariant Settle(outcomes, Expired(entries[i..], now), TimedOut)
               == Settle(old(outcomes), Expired(all, now), TimedOut)
        decreases |entries| - i
      {
        CutAt(entries, i, now, outcomes);
        if now >= entries[i].deadline {
          outcomes := outcomes[entries[i].id := TimedOut];
          entries := entries[..i] + entries[i + 1..];
        } else {
          i := i + 1;
        }
      }
      assert entries[..i] + [] == entries && entries[i..] == [];
    }

    /** Resolves entries from the head of the list while the limiter has capacity. */
    method ResolveAvailable(key: QueueKey, limit: int, window: nat, all: seq<Entry>,
                            now: int) returns (entries: seq<Entry>)
      requires limiter.Valid()
      modifies this`outcomes, limiter
      ensures limiter.Valid()
      ensures var r := Resolve(old(limiter.Value()), limiter.maxBuckets, key.text, limit, window, |all|, now);
              && r.count <= |all| && entries == all[r.count..]
              && limiter.Value() == r.limiter
              && outcomes == Settle(old(outcomes), all[..r.count], Resolved)
    {
      entries := all;
      ghost var k := 0;
      ghost var start, n := outcomes, limiter.maxBuckets;
      ghost var total := Resolve(limiter.Value(), n, key.text, limit, window, |all|, now);
      HalfwayStart(start, all, limiter.Value(), n, key.text, limit, window, now);
      hide *;
      while |entries| > 0
        invariant limiter.Valid() && k <= |all| && entries == all[k..]
        invariant Halfway(total, k, start, all, outcomes, limiter.Value(), n, key.text, limit, window, now)
        decreases |entries|
      {
        HalfwayNext(total, k, start, all, outcomes, limiter.Value(), n, key.text, limit, window, now);
        var checkResult := limiter.Check(key.text, limit, window, now, now);
        if !checkResult.allowed {
          return;
        }
        var _ := limiter.Consume(key.text, limit, window, now, now);
        outcomes := outcomes[entries[0].id := Resolved];
        entries := entries[1..];
        k := k + 1;
      }
      HalfwayEnd(total, start, all, outcomes, limiter.Value(), n, key.text, limit, window, now);
    }

    /** One key of one pass. */
    method ProcessKey(key: QueueKey, now: int)
      requires limiter.Valid() && key in keys
      modifies this`order, this`keys, this`outcomes, limiter
      ensures limiter.Valid()
      ensures Both(Value(), limiter.Value())
           == PassKey(old(Both(Value(), limiter.Value())), limiter.maxBuckets, key, now)
    {
      hide Resolve, Consistent, Settle, Expired, Survivors, Without;
      var keyState := keys[key];
      var entries := RejectExpired(keyState.entries, now);
      entries := ResolveAvailable(key, keyState.limit, keyState.window, entries, now);
      if |entries| == 0 {
        order, keys := Without(order, key), keys - {key};
      } else {
        keys := keys[key := keyState.(entries := entries)];
      }
    }

    method ProcessAllPendingRequests(now: int)
      requires Valid()
      modifies this`order, this`keys, this`outcomes, this`polling, limiter
      ensures Valid()
      ensures Both(Value(), limiter.Value()) == ProcessAll(old(Both(Value(), limiter.Value())), limiter.maxBuckets, now)
    {
      ghost var before := Both(Value(), limiter.Value());
      TickGood(before, limiter.maxBuckets, maxQueueSize, now, issued);
      var todo := order;
      while |todo| > 0
        invariant limiter.Valid() && Distinct(todo) && forall key :: key in todo ==> key in keys
        invariant PassKeys(Both(Value(), limiter.Value()), limiter.maxBuckets, todo, now)
                  == PassKeys(before, limiter.maxBuckets, before.queue.order, now)
        decreases |todo|
      {
        OthersStay(Both(Value(), limiter.Value()), limiter.maxBuckets, todo, now);
        hide PassKey, Distinct, Consistent;
        ProcessKey(todo[0], now);
        todo := todo[1..];
      }
      if keys == map[] && polling {
        polling := false;
      }
    }

    method Stop()
      requires Valid()
      modifies this
      ensures Valid() && issued == old(issued)
      ensures Value() == AfterStop(old(Value()))
    {
      ghost var before := Value();
      hide Good, SettleKeys, Consistent;
      InGoodShape(before, maxQueueSize, issued);
      StopRejectsAll(before, maxQueueSize, issued);
      polling := false;
      SettleNoKeys(before);
      for i := 0 to |order|
        invariant order == before.order && keys == before.keys && !polling && issued == old(issued)
        invariant outcomes == SettleKeys(before, order[..i])
      {
        SettleNextKey(before, order, i);
        outcomes := RejectAll(outcomes, keys[order[i]].entries);
      }
      assert order[..|order|] == order;
      order, keys := [], map[];
    }

    static method RejectAll(before: map<nat, Outcome>, entries: seq<Entry>) returns (after: map<nat, Outcome>)
      ensures after == Settle(before, entries, Stopped)
    {
      after := before;
      for i := 0 to |entries|
        invariant Settle(after, entries[i..], Stopped) == Settle(before, entries, Stopped)
      {
        assert entries[i..][1..] == entries[i + 1..];
        after := after[entries[i].id := Stopped];
      }
    }
  }

  /** The resolving loop after `k` rounds. */
  ghost predicate Halfway(total: Resolution, k: nat, start: map<nat, Outcome>, all: seq<Entry>,
                          outcomes: map<nat, Outcome>, lim: State, maxBuckets: nat, key: string, limit: int,
                          window: nat, now: int)
  {
    && k <= total.count <= |all|
    && Resolve(lim, maxBuckets, key, limit, window, |all| - k, now) == Resolution(total.count - k, total.limiter)
    && Settle(outcomes, all[k..total.count], Resolved) == Settle(start, all[..total.count], Resolved)
  }

  lemma HalfwayStart(start: map<nat, Outcome>, all: seq<Entry>, lim: State, maxBuckets: nat, key: string, limit: int,
                     window: nat, now: int)
    ensures Halfway(Resolve(lim, maxBuckets, key, limit, window, |all|, now), 0, start, all, start, lim, maxBuckets,
                    key, limit, window, now)
  {
    ResolveAtMost(lim, maxBuckets, key, limit, window, |all|, now);
    hide Resolve, Settle;
  }

  lemma HalfwayNext(total: Resolution, k: nat, start: map<nat, Outcome>, all: seq<Entry>, outcomes: map<nat, Outcome>,
                    lim: State, maxBuckets: nat, key: string, limit: int, window: nat, now: int)
    requires k < |all| && Halfway(total, k, start, all, outcomes, lim, maxBuckets, key, limit, window, now)
    ensures var check := CheckOp(key, limit, window, now, now);
            var checked := Apply(lim, maxBuckets, check);
            if AnswerOf(lim, check).allowed then
              var consumed := Apply(checked, maxBuckets, ConsumeOp(key, limit, window, now, now));
              Halfway(total, k + 1, start, all, outcomes[all[k].id := Resolved], consumed, maxBuckets, key, limit,
                      window, now)
            else
              k == total.count && checked == total.limiter && outcomes == Settle(start, all[..k], Resolved)
  {
    hide Apply, AnswerOf;
    if AnswerOf(lim, CheckOp(key, limit, window, now, now)).allowed {
      assert total.count > k;
      assert all[k..total.count][1..] == all[k + 1..total.count];
    }
  }

  lemma HalfwayEnd(total: Resolution, start: map<nat, Outcome>, all: seq<Entry>, outcomes: map<nat, Outcome>,
                   lim: State, maxBuckets: nat, key: string, limit: int, window: nat, now: int)
    requires Halfway(total, |all|, start, all, outcomes, lim, maxBuckets, key, limit, window, now)
    ensures total.count == |all| && lim == total.limiter && outcomes == Settle(start, all, Resolved)
  {
    assert all[..total.count] == all;
  }

  /** One step of the rejecting walk. */
  lemma CutAt(entries: seq<Entry>, i: nat, now: int, outcomes: map<nat, Outcome>)
    requires i < |entries|
    ensures var e, rest := entries[i], entries[..i] + entries[i + 1..];
            if now >= e.deadline then
              && rest[..i] + Survivors(rest[i..], now) == entries[..i] + Survivors(entries[i..], now)
              && Settle(outcomes[e.id := TimedOut], Expired(rest[i..], now), TimedOut)
                == Settle(outcomes, Expired(entries[i..], now), TimedOut)
            else
              && entries[..i + 1] + Survivors(entries[i + 1..], now) == entries[..i] + Survivors(entries[i..], now)
              && Settle(outcomes, Expired(entries[i + 1..], now), TimedOut)
                == Settle(outcomes, Expired(entries[i..], now), TimedOut)
  {
    var e, rest := entries[i], entries[..i] + entries[i + 1..];
    assert entries[i..][1..] == entries[i + 1..];
    assert rest[..i] == entries[..i] && rest[i..] == entries[i + 1..];
    if now >= e.deadline {
      assert Expired(entries[i..], now)[1..] == Expired(entries[i + 1..], now);
      assert Survivors(entries[i..], now) == Survivors(entries[i + 1..], now);
    } else {
      assert Survivors(entries[i..], now) == [e] + Survivors(entries[i + 1..], now);
      assert entries[..i + 1] == entries[..i] + [e];
      assert [] + Expired(entries[i + 1..], now) == Expired(entries[i + 1..], now);
    }
  }
}
