/**
 What eviction does to the window bound of the limiter (src/rate-limit/limiter.ts:72-81). Buckets are dropped by
 age of insertion, live or not; this happens only when more buckets are in use than the map may hold, and then it
 can let a client through twice.
 */
module BucketEviction {
  import opened Numbers
  import opened Sequences
  import opened SlidingBucket
  import opened SlidingWindow

  /** How many buckets the map can hold: with a cap of zero still the one just inserted. */
  function Capacity(maxBuckets: nat): nat {
    Max(1, maxBuckets)
  }

  /** The buckets that the run consumes from. No other operation creates one. */
  function BucketsUsed(run: Run): set<BucketKey> {
    match run
    case Start => {}
    case Then(past, last) =>
      BucketsUsed(past) + if last.ConsumeOp? then {StorageKey(last.key, last.window)} else {}
  }

  /** No reset of the run reaches the bucket. */
  predicate NeverReset(run: Run, sk: BucketKey) {
    match run
    case Start => true
    case Then(past, last) =>
      NeverReset(past, sk) && !last.ResetAllOp? && (last.ResetOp? ==> !StartsWith(sk, last.key + [':']))
  }

  // ---------------------------------------------------------------------------------------------
  // Few buckets: nothing is evicted

  /** The map holds none but these buckets. */
  ghost predicate Holds(st: State, keys: set<BucketKey>) {
    Consistent(st) && forall sk :: sk in st.order ==> sk in keys
  }

  lemma NoEviction(st: State, maxBuckets: nat, keys: set<BucketKey>, sk: BucketKey)
    requires Holds(st, keys) && sk in keys && sk !in st.buckets && |keys| <= Capacity(maxBuckets)
    ensures Evicted(st, maxBuckets) == st
  {
    DistinctFits(st.order, keys - {sk});
    hide Consistent, EvictionTarget;
  }

  lemma PruneHolds(st: State, keys: set<BucketKey>, sk: BucketKey, cutoff: int)
    requires Holds(st, keys)
    ensures Holds(Pruned(st, sk, cutoff), keys)
    ensures forall k :: k in st.buckets && k != sk ==> k in Pruned(st, sk, cutoff).buckets
  {
    PruneConsistent(st, sk, cutoff);
    PrunedKeeps(st, sk, cutoff);
    hide Filter, Without, Distinct;
  }

  lemma SetHolds(st: State, keys: set<BucketKey>, sk: BucketKey, stamps: seq<int>)
    requires Holds(st, keys) && sk in keys
    ensures Holds(Set(st, sk, stamps), keys)
    ensures forall k :: k in st.buckets ==> k in Set(st, sk, stamps).buckets
  {
    SetConsistent(st, sk, stamps);
    hide Distinct;
  }

  lemma ConsumeHolds(st: State, maxBuckets: nat, keys: set<BucketKey>, sk: BucketKey, limit: int, window: nat,
                     t0: int, t1: int)
    requires Holds(st, keys) && sk in keys && |keys| <= Capacity(maxBuckets)
    ensures var r := AfterConsume(st, maxBuckets, sk, limit, window, t0, t1);
            Holds(r, keys) && forall k :: k in st.buckets && k != sk ==> k in r.buckets
  {
    var pruned, valid := Pruned(st, sk, t0 - window), Filter(Bucket(st, sk), t0 - window);
    hide Holds, Pruned, Filter, Bucket, Evicted, Capacity, Set;
    PruneHolds(st, keys, sk, t0 - window);
    if |valid| < limit {
      if sk !in pruned.buckets {
        NoEviction(pruned, maxBuckets, keys, sk);
      }
      SetHolds(pruned, keys, sk, valid + [t1]);
    }
  }

  lemma ResetHolds(st: State, keys: set<BucketKey>, key: string)
    requires Holds(st, keys)
    ensures Holds(AfterReset(st, key), keys)
  {
    WithoutPrefixMembers(st.order, key + [':']);
    hide Distinct, WithoutPrefix, StartsWith;
  }

  /** With no more buckets in use than the map can hold, an operation throws away what it resets and nothing else. */
  lemma ApplyKeeps(st: State, maxBuckets: nat, keys: set<BucketKey>, op: Op, sk: BucketKey)
    requires Holds(st, keys) && |keys| <= Capacity(maxBuckets)
    requires op.ConsumeOp? ==> StorageKey(op.key, op.window) in keys
    ensures Holds(Apply(st, maxBuckets, op), keys)
    ensures !op.ResetAllOp? && (op.ResetOp? ==> !StartsWith(sk, op.key + [':'])) ==> !Loses(st, maxBuckets, op, sk)
  {
    hide Holds, AfterConsume, Pruned, StorageKey, StartsWith, Capacity;
    match op
    case ConsumeOp(key, limit, window, t0, t1) =>
      ConsumeHolds(st, maxBuckets, keys, StorageKey(key, window), limit, window, t0, t1);
    case CheckOp(key, _, window, t0, _) => PruneHolds(st, keys, StorageKey(key, window), t0 - window);
    case UsageOp(key, window, t0, _) => PruneHolds(st, keys, StorageKey(key, window), t0 - window);
    case ResetOp(key) => ResetHolds(st, keys, key);
    case ResetAllOp => NothingHeld(keys);
  }

  lemma NothingHeld(keys: set<BucketKey>)
    ensures Holds(EMPTY, keys)
  {
  }

  /** A run over no more buckets than the map can hold keeps every bucket it does not reset. */
  lemma {:induction false} FewBucketsKept(maxBuckets: nat, run: Run, keys: set<BucketKey>, sk: BucketKey)
    requires BucketsUsed(run) <= keys && |keys| <= Capacity(maxBuckets)
    ensures Holds(Final(EMPTY, maxBuckets, run), keys)
    ensures NeverReset(run, sk) ==> KeepsBucket(EMPTY, maxBuckets, run, sk)
  {
    hide Holds, Apply, Loses, StorageKey, StartsWith, Capacity;
    match run
    case Start => NothingHeld(keys);
    case Then(past, last) =>
      FewBucketsKept(maxBuckets, past, keys, sk);
      ApplyKeeps(Final(EMPTY, maxBuckets, past), maxBuckets, keys, last, sk);
  }

  // ---------------------------------------------------------------------------------------------
  // One bucket too many: the bound is broken

  /** `n` consumes of one bucket, all at time zero. */
  function Burst(base: Run, key: string, limit: int, window: nat, n: nat): Run {
    if n == 0 then base else Then(Burst(base, key, limit, window, n - 1), ConsumeOp(key, limit, window, 0, 0))
  }

  /** Longer and longer keys, none of them `key` itself. */
  function OtherKey(key: string, i: nat): string {
    key + Repeat('x', i + 1)
  }

  /** One consume of each of the first `n` other keys. */
  function Crowd(base: Run, key: string, limit: int, window: nat, n: nat): Run {
    if n == 0 then base
    else Then(Crowd(base, key, limit, window, n - 1), ConsumeOp(OtherKey(key, n - 1), limit, window, 0, 0))
  }

  /** A client uses up its limit, so many others come that its bucket is evicted, and it starts again. */
  function Overfilling(maxBuckets: nat, key: string, limit: nat, window: nat): Run {
    Burst(Crowd(Burst(Start, key, limit, window, limit), key, limit, window, Capacity(maxBuckets)),
          key, limit, window, limit)
  }

  lemma {:induction false} ZerosKept(n: nat, window: nat)
    ensures Filter(Repeat(0, n), 0 - window) == Repeat(0, n)
    ensures forall t :: t in Repeat(0, n) ==> t == 0
  {
    if n > 0 {
      ZerosKept(n - 1, window);
      RepeatOnceMore(0, n - 1);
      FilterSnoc(Repeat(0, n - 1), 0, 0 - window);
    }
  }

  lemma {:induction false} ZerosCount(n: nat, window: nat)
    ensures CountIn(Repeat(0, n), 0, window) == n
  {
    if n > 0 {
      ZerosCount(n - 1, window);
      RepeatOnceMore(0, n - 1);
      assert (Repeat(0, n - 1) + [0])[..n - 1] == Repeat(0, n - 1);
    }
  }

  lemma OnceMore(st: State, maxBuckets: nat, key: string, limit: int, window: nat, n: nat)
    requires Bucket(st, StorageKey(key, window)) == Repeat(0, n) && n < limit
    ensures var op := ConsumeOp(key, limit, window, 0, 0);
            && AnswerOf(st, op).allowed
            && Bucket(Apply(st, maxBuckets, op), StorageKey(key, window)) == Repeat(0, n + 1)
  {
    hide StorageKey, Apply, Filter, Bucket, Repeat;
    BucketAfterOp(st, maxBuckets, ConsumeOp(key, limit, window, 0, 0), StorageKey(key, window));
    ZerosKept(n, window);
    RepeatOnceMore(0, n);
  }

  /** From a time without a bucket a burst within the limit is admitted in full. */
  lemma {:induction false} BurstAdmitted(maxBuckets: nat, base: Run, key: string, limit: int, window: nat, n: nat)
    requires n <= limit && Bucket(Final(EMPTY, maxBuckets, base), StorageKey(key, window)) == []
    ensures var run, sk := Burst(base, key, limit, window, n), StorageKey(key, window);
            && Bucket(Final(EMPTY, maxBuckets, run), sk) == Repeat(0, n)
            && Admitted(EMPTY, maxBuckets, run, sk) == Admitted(EMPTY, maxBuckets, base, sk) + Repeat(0, n)
  {
    hide StorageKey, Apply, Filter, Bucket, AnswerOf;
    var sk := StorageKey(key, window);
    if n == 0 {
      AppendNothing(Admitted(EMPTY, maxBuckets, base, sk));
    } else {
      var before := Burst(base, key, limit, window, n - 1);
      BurstAdmitted(maxBuckets, base, key, limit, window, n - 1);
      OnceMore(Final(EMPTY, maxBuckets, before), maxBuckets, key, limit, window, n - 1);
      RepeatOnceMore(0, n - 1);
      AppendAgain(Admitted(EMPTY, maxBuckets, base, sk), Repeat(0, n - 1), [0]);
    }
  }

  /** The map after a burst into the empty map. */
  lemma BurstAlone(maxBuckets: nat, key: string, limit: nat, window: nat)
    requires limit >= 1
    ensures var st := Final(EMPTY, maxBuckets, Burst(Start, key, limit, window, limit));
            Consistent(st) && st.order == [StorageKey(key, window)]
  {
    hide StorageKey, Apply, Filter, Final, Burst;
    var run, sk := Burst(Start, key, limit, window, limit), StorageKey(key, window);
    EmptyAtStart(maxBuckets);
    BurstAdmitted(maxBuckets, Start, key, limit, window, limit);
    BurstUses(Start, key, limit, window, limit);
    FewBucketsKept(maxBuckets, run, {sk}, sk);
    DistinctFits(Final(EMPTY, maxBuckets, run).order, {sk});
  }

  lemma EmptyAtStart(maxBuckets: nat)
    ensures Final(EMPTY, maxBuckets, Start) == EMPTY && BucketsUsed(Start) == {}
    ensures forall sk :: Admitted(EMPTY, maxBuckets, Start, sk) == []
  {
  }

  lemma {:induction false} BurstUses(base: Run, key: string, limit: int, window: nat, n: nat)
    ensures BucketsUsed(Burst(base, key, limit, window, n)) <= BucketsUsed(base) + {StorageKey(key, window)}
  {
    hide StorageKey;
    if n > 0 { BurstUses(base, key, limit, window, n - 1); }
  }

  lemma OthersDiffer(key: string, i: nat, j: nat, window: nat)
    ensures StorageKey(OtherKey(key, i), window) != StorageKey(key, window)
    ensures i != j ==> StorageKey(OtherKey(key, i), window) != StorageKey(OtherKey(key, j), window)
  {
    hide StorageKey;
    StorageKeyInjective(OtherKey(key, i), window, key, window);
    StorageKeyInjective(OtherKey(key, i), window, OtherKey(key, j), window);
    assert |OtherKey(key, i)| == |key| + i + 1 && |OtherKey(key, j)| == |key| + j + 1;
  }

  lemma FirstConsume(st: State, maxBuckets: nat, sk: BucketKey, limit: int, window: nat)
    requires sk !in st.buckets && limit >= 1
    ensures AfterConsume(st, maxBuckets, sk, limit, window, 0, 0) == Set(Evicted(st, maxBuckets), sk, [0])
  {
    EvictedKeeps(st, maxBuckets);
    assert Filter([], 0 - window) + [0] == [0];
    hide Evicted;
  }

  /** The bucket stays the oldest in the map while there is room for the others. */
  ghost predicate OldestOf(st: State, sk: BucketKey, key: string, window: nat, n: nat) {
    && Consistent(st) && |st.order| == n + 1 && st.order[0] == sk
    && forall i :: n <= i ==> StorageKey(OtherKey(key, i), window) !in st.buckets
  }

  lemma OneMoreOther(st: State, maxBuckets: nat, sk: BucketKey, key: string, window: nat, n: nat, limit: int)
    requires OldestOf(st, sk, key, window, n) && n + 1 < Capacity(maxBuckets) && limit >= 1
    ensures OldestOf(Apply(st, maxBuckets, ConsumeOp(OtherKey(key, n), limit, window, 0, 0)), sk, key, window, n + 1)
  {
    hide StorageKey, Filter, OtherKey, AfterConsume;
    var other := StorageKey(OtherKey(key, n), window);
    FirstConsume(st, maxBuckets, other, limit, window);
    assert Evicted(st, maxBuckets) == st;
    SetConsistent(st, other, [0]);
    forall i | n < i ensures StorageKey(OtherKey(key, i), window) !in Set(st, other, [0]).buckets {
      OthersDiffer(key, i, n, window);
    }
  }

  lemma {:induction false} CrowdFills(maxBuckets: nat, base: Run, key: string, limit: int, window: nat, n: nat)
    requires limit >= 1 && n < Capacity(maxBuckets)
    requires OldestOf(Final(EMPTY, maxBuckets, base), StorageKey(key, window), key, window, 0)
    ensures OldestOf(Final(EMPTY, maxBuckets, Crowd(base, key, limit, window, n)), StorageKey(key, window), key,
                     window, n)
  {
    hide StorageKey, Apply, OldestOf, OtherKey, Capacity;
    if n > 0 {
      CrowdFills(maxBuckets, base, key, limit, window, n - 1);
      OneMoreOther(Final(EMPTY, maxBuckets, Crowd(base, key, limit, window, n - 1)), maxBuckets,
                   StorageKey(key, window), key, window, n - 1, limit);
    }
  }

  lemma EvictsOldest(st: State, maxBuckets: nat)
    requires |st.order| == Capacity(maxBuckets)
    ensures st.order[0] !in Evicted(st, maxBuckets).buckets
  {
    assert EvictionTarget(maxBuckets) < Capacity(maxBuckets);
    hide EvictionTarget;
  }

  /** One bucket too many, and the oldest is gone. */
  lemma OneTooMany(st: State, maxBuckets: nat, sk: BucketKey, key: string, window: nat, n: nat, limit: int)
    requires OldestOf(st, sk, key, window, n) && n + 1 == Capacity(maxBuckets) && limit >= 1
    requires sk == StorageKey(key, window)
    ensures sk !in Apply(st, maxBuckets, ConsumeOp(OtherKey(key, n), limit, window, 0, 0)).buckets
  {
    hide StorageKey, Filter, OtherKey, AfterConsume, Evicted;
    FirstConsume(st, maxBuckets, StorageKey(OtherKey(key, n), window), limit, window);
    EvictsOldest(st, maxBuckets);
    OthersDiffer(key, n, n, window);
  }

  lemma {:induction false} CrowdLeavesAlone(maxBuckets: nat, base: Run, key: string, limit: int, window: nat, n: nat)
    ensures Admitted(EMPTY, maxBuckets, Crowd(base, key, limit, window, n), StorageKey(key, window))
            == Admitted(EMPTY, maxBuckets, base, StorageKey(key, window))
  {
    hide StorageKey, Apply, Final, AnswerOf, OtherKey;
    if n > 0 {
      CrowdLeavesAlone(maxBuckets, base, key, limit, window, n - 1);
      OthersDiffer(key, n - 1, n - 1, window);
    }
  }

  lemma {:induction false} CrowdUses(base: Run, key: string, limit: int, window: nat, n: nat)
    ensures |BucketsUsed(Crowd(base, key, limit, window, n)) + {StorageKey(key, window)}|
            <= |BucketsUsed(base) + {StorageKey(key, window)}| + n
  {
    hide StorageKey, OtherKey;
    if n > 0 {
      CrowdUses(base, key, limit, window, n - 1);
      var used := BucketsUsed(Crowd(base, key, limit, window, n - 1)) + {StorageKey(key, window)};
      var other := StorageKey(OtherKey(key, n - 1), window);
      assert BucketsUsed(Crowd(base, key, limit, window, n)) + {StorageKey(key, window)} == used + {other};
    }
  }

  /** After the burst the others push the bucket out, with one bucket more than the map can hold. */
  lemma BucketPushedOut(maxBuckets: nat, key: string, limit: nat, window: nat)
    requires limit >= 1
    ensures var burst, n := Burst(Start, key, limit, window, limit), Capacity(maxBuckets);
            StorageKey(key, window) !in Final(EMPTY, maxBuckets, Crowd(burst, key, limit, window, n)).buckets
  {
    hide StorageKey, Apply, OtherKey, Burst, Consistent;
    var burst, n := Burst(Start, key, limit, window, limit), Capacity(maxBuckets);
    BurstAlone(maxBuckets, key, limit, window);
    forall i: nat ensures StorageKey(OtherKey(key, i), window) !in Final(EMPTY, maxBuckets, burst).buckets {
      OthersDiffer(key, i, i, window);
      NotHeld(Final(EMPTY, maxBuckets, burst), StorageKey(OtherKey(key, i), window));
    }
    CrowdFills(maxBuckets, burst, key, limit, window, n - 1);
    OneTooMany(Final(EMPTY, maxBuckets, Crowd(burst, key, limit, window, n - 1)), maxBuckets, StorageKey(key, window),
               key, window, n - 1, limit);
  }

  lemma NotHeld(st: State, sk: BucketKey)
    requires Consistent(st) && sk !in st.order
    ensures sk !in st.buckets
  {
  }

  /** One bucket more than the map can hold, and twice the limit is admitted to one bucket at one instant. */
  lemma OverfillingAdmitsTwice(maxBuckets: nat, key: string, limit: nat, window: nat)
    requires limit >= 1
    ensures var run, sk := Overfilling(maxBuckets, key, limit, window), StorageKey(key, window);
            Admitted(EMPTY, maxBuckets, run, sk) == Repeat(0, 2 * limit)
  {
    hide StorageKey, Final, Crowd, Burst, Capacity, Repeat, Admitted;
    var burst, sk := Burst(Start, key, limit, window, limit), StorageKey(key, window);
    var crowd := Crowd(burst, key, limit, window, Capacity(maxBuckets));
    EmptyAtStart(maxBuckets);
    BurstAdmitted(maxBuckets, Start, key, limit, window, limit);
    CrowdLeavesAlone(maxBuckets, burst, key, limit, window, Capacity(maxBuckets));
    BucketPushedOut(maxBuckets, key, limit, window);
    BurstAdmitted(maxBuckets, crowd, key, limit, window, limit);
    assert [] + Repeat(0, limit) == Repeat(0, limit);
    RepeatAgain(0, limit, limit);
  }

  lemma OverfillingUses(maxBuckets: nat, key: string, limit: nat, window: nat)
    ensures |BucketsUsed(Overfilling(maxBuckets, key, limit, window))| <= Capacity(maxBuckets) + 1
  {
    hide StorageKey, Crowd, Burst, BucketsUsed, Capacity;
    var burst, sk := Burst(Start, key, limit, window, limit), StorageKey(key, window);
    var crowd := Crowd(burst, key, limit, window, Capacity(maxBuckets));
    EmptyAtStart(maxBuckets);
    BurstUses(Start, key, limit, window, limit);
    BurstUses(crowd, key, limit, window, limit);
    assert BucketsUsed(burst) + {sk} == {sk};
    CrowdUses(burst, key, limit, window, Capacity(maxBuckets));
    SubsetSize(BucketsUsed(Overfilling(maxBuckets, key, limit, window)), BucketsUsed(crowd) + {sk});
  }

  /** The overfilling run is an ordinary one: no reset, one limit, a clock that stands still. */
  lemma {:induction false} BurstOrdinary(base: Run, key: string, limit: int, window: nat, n: nat, sk: BucketKey)
    requires RunMonotone(base, 0) && RunClock(base, 0) == 0 && RunLimit(base, sk, limit) && NeverReset(base, sk)
    ensures var run := Burst(base, key, limit, window, n);
            RunMonotone(run, 0) && RunClock(run, 0) == 0 && RunLimit(run, sk, limit) && NeverReset(run, sk)
  {
    hide StorageKey;
    if n > 0 { BurstOrdinary(base, key, limit, window, n - 1, sk); }
  }

  lemma {:induction false} CrowdOrdinary(base: Run, key: string, limit: int, window: nat, n: nat, sk: BucketKey)
    requires RunMonotone(base, 0) && RunClock(base, 0) == 0 && RunLimit(base, sk, limit) && NeverReset(base, sk)
    ensures var run := Crowd(base, key, limit, window, n);
            RunMonotone(run, 0) && RunClock(run, 0) == 0 && RunLimit(run, sk, limit) && NeverReset(run, sk)
  {
    hide StorageKey, OtherKey;
    if n > 0 { CrowdOrdinary(base, key, limit, window, n - 1, sk); }
  }

  // ---------------------------------------------------------------------------------------------
  // Exactly when the bound holds

  /** A run that uses at most `n` buckets and never resets this one, whose limit it keeps. */
  predicate Ordinary(run: Run, n: nat, sk: BucketKey, limit: int, from: int) {
    |BucketsUsed(run)| <= n && NeverReset(run, sk) && RunMonotone(run, from) && RunLimit(run, sk, limit)
  }

  predicate WithinBound(maxBuckets: nat, run: Run, key: string, window: nat, limit: int, lo: int) {
    CountIn(Admitted(EMPTY, maxBuckets, run, StorageKey(key, window)), lo, lo + window) <= Max(limit, 0)
  }

  /** The window bound holds for this bucket in every run over at most `n` buckets. */
  ghost predicate BoundHolds(maxBuckets: nat, n: nat, key: string, window: nat, limit: int) {
    forall run, from, lo :: Ordinary(run, n, StorageKey(key, window), limit, from) ==>
      WithinBound(maxBuckets, run, key, window, limit, lo)
  }

  lemma {:induction false} NothingAdmitted(maxBuckets: nat, run: Run, sk: BucketKey, limit: int)
    requires RunLimit(run, sk, limit) && limit <= 0
    ensures Admitted(EMPTY, maxBuckets, run, sk) == []
  {
    hide StorageKey, Apply;
    match run
    case Start =>
    case Then(past, last) => NothingAdmitted(maxBuckets, past, sk, limit);
  }

  /** With no more buckets in use than the map can hold, the window bound needs nothing but the absence of resets. */
  lemma FewBucketsBounded(maxBuckets: nat, run: Run, n: nat, key: string, window: nat, limit: int, from: int, lo: int)
    requires Ordinary(run, n, StorageKey(key, window), limit, from) && (limit <= 0 || n <= Capacity(maxBuckets))
    ensures WithinBound(maxBuckets, run, key, window, limit, lo)
  {
    hide BucketsUsed, Admitted, StorageKey, KeepsBucket, Capacity;
    if limit <= 0 {
      NothingAdmitted(maxBuckets, run, StorageKey(key, window), limit);
    } else {
      FewBucketsKept(maxBuckets, run, BucketsUsed(run), StorageKey(key, window));
      AdmittedWithinLimit(EMPTY, maxBuckets, run, key, window, limit, from, lo);
    }
  }

  lemma OverfillingBreaksBound(maxBuckets: nat, n: nat, key: string, window: nat, limit: nat)
    requires limit >= 1 && n > Capacity(maxBuckets)
    ensures var run := Overfilling(maxBuckets, key, limit, window);
            Ordinary(run, n, StorageKey(key, window), limit, 0) && !WithinBound(maxBuckets, run, key, window, limit, 0)
  {
    var sk, burst := StorageKey(key, window), Burst(Start, key, limit, window, limit);
    assert RunMonotone(Start, 0) && RunClock(Start, 0) == 0 && RunLimit(Start, sk, limit) && NeverReset(Start, sk);
    hide StorageKey, Burst, Crowd, Capacity, BucketsUsed, Admitted, RunMonotone, RunClock, RunLimit, NeverReset;
    OverfillingAdmitsTwice(maxBuckets, key, limit, window);
    OverfillingUses(maxBuckets, key, limit, window);
    ZerosCount(2 * limit, window);
    BurstOrdinary(Start, key, limit, window, limit, sk);
    CrowdOrdinary(burst, key, limit, window, Capacity(maxBuckets), sk);
    BurstOrdinary(Crowd(burst, key, limit, window, Capacity(maxBuckets)), key, limit, window, limit, sk);
  }

  /** The window bound holds in all runs over at most `n` buckets exactly when the map has room for `n` buckets. */
  lemma BoundNeedsRoom(maxBuckets: nat, n: nat, key: string, window: nat, limit: int)
    ensures BoundHolds(maxBuckets, n, key, window, limit) <==> limit <= 0 || n <= Capacity(maxBuckets)
  {
    hide Ordinary, WithinBound, Capacity, Overfilling;
    if limit <= 0 || n <= Capacity(maxBuckets) {
      forall run, from, lo | Ordinary(run, n, StorageKey(key, window), limit, from)
        ensures WithinBound(maxBuckets, run, key, window, limit, lo)
      {
        FewBucketsBounded(maxBuckets, run, n, key, window, limit, from, lo);
      }
    } else {
      OverfillingBreaksBound(maxBuckets, n, key, window, limit);
    }
  }

  // ---------------------------------------------------------------------------------------------
  // Which buckets are dropped

  /** The map is in good order and holds no bucket without stamps. */
  ghost predicate Tidy(st: State) {
    Consistent(st) && forall sk :: sk in st.buckets ==> st.buckets[sk] != []
  }

  /** A consume that is admitted and finds nothing that counts in its bucket makes the bucket anew. */
  predicate Creates(st: State, op: Op, sk: BucketKey) {
    op.ConsumeOp? && OnBucket(op, sk) && op.limit > 0 && Filter(Bucket(st, sk), op.t0 - op.window) == []
  }

  /** The buckets that stay, in their order, and behind them the one that is made anew. */
  ghost predicate Follows(st: State, r: State, op: Op, kept: seq<BucketKey>) {
    && IsSubsequence(kept, st.order)
    && (forall sk :: sk in kept ==> !Creates(st, op, sk))
    && (r.order == kept || exists sk :: Creates(st, op, sk) && r.order == kept + [sk])
  }

  lemma PrunedTidy(st: State, sk: BucketKey, cutoff: int)
    requires Tidy(st)
    ensures var r := Pruned(st, sk, cutoff);
            && Tidy(r) && IsSubsequence(r.order, st.order)
            && (sk in r.order <==> Filter(Bucket(st, sk), cutoff) != [])
  {
    PruneConsistent(st, sk, cutoff);
    SubsequenceOfSelf(st.order);
    WithoutSubsequence(st.order, sk);
    WithoutMembers(st.order, sk);
    hide IsSubsequence, Filter, Distinct, Without;
    assert Filter([], cutoff) == [] by { NothingValid(cutoff); }
  }

  lemma NothingValid(cutoff: int)
    ensures Filter([], cutoff) == []
  {
  }

  lemma EvictedTidy(st: State, maxBuckets: nat)
    requires Tidy(st)
    ensures Tidy(Evicted(st, maxBuckets)) && IsSubsequence(Evicted(st, maxBuckets).order, st.order)
  {
    EvictionKeepsNewest(st, maxBuckets);
    var target := EvictionTarget(maxBuckets);
    if |st.order| >= maxBuckets && |st.order| > target { DropOldestConsistent(st, |st.order| - target); }
    SuffixSubsequence(st.order, |st.order| - |Evicted(st, maxBuckets).order|);
    hide IsSubsequence, Distinct;
  }

  lemma SetTidy(st: State, sk: BucketKey, stamps: seq<int>)
    requires Tidy(st) && stamps != []
    ensures Tidy(Set(st, sk, stamps)) && Set(st, sk, stamps).order == st.order + if sk in st.buckets then [] else [sk]
  {
    SetConsistent(st, sk, stamps);
    AppendNothing(st.order);
    hide Distinct;
  }

  /** How a consume leaves the order, when it adds a stamp and when it does not. */
  lemma ConsumeOrder(st: State, maxBuckets: nat, sk: BucketKey, limit: int, window: nat, t0: int, t1: int)
    returns (kept: seq<BucketKey>)
    requires Tidy(st)
    ensures var r := AfterConsume(st, maxBuckets, sk, limit, window, t0, t1);
            var valid := Filter(Bucket(st, sk), t0 - window);
            && Tidy(r) && IsSubsequence(kept, st.order)
            && (sk in kept ==> valid != [])
            && (r.order == kept || (limit > 0 && valid == [] && r.order == kept + [sk]))
  {
    var pruned := Pruned(st, sk, t0 - window);
    var valid := Filter(Bucket(st, sk), t0 - window);
    PrunedTidy(st, sk, t0 - window);
    assert sk in pruned.order <==> sk in pruned.buckets;
    hide IsSubsequence, Filter, Pruned, Evicted, Set, Bucket, Tidy;
    if |valid| >= limit {
      kept := pruned.order;
    } else {
      var room := if sk in pruned.buckets then pruned else Evicted(pruned, maxBuckets);
      EvictedTidy(pruned, maxBuckets);
      SetTidy(room, sk, valid + [t1]);
      kept := room.order;
      AppendNothing(kept);
      SubsequenceTwice(kept, pruned.order, st.order) by { SubsequenceOfSelf(pruned.order); }
      SubsequenceMembers(kept, pruned.order) by { SubsequenceOfSelf(pruned.order); }
    }
  }

  lemma ConsumeFollows(st: State, maxBuckets: nat, op: Op) returns (kept: seq<BucketKey>)
    requires Tidy(st) && op.ConsumeOp?
    ensures Tidy(Apply(st, maxBuckets, op)) && Follows(st, Apply(st, maxBuckets, op), op, kept)
  {
    var sk := StorageKey(op.key, op.window);
    kept := ConsumeOrder(st, maxBuckets, sk, op.limit, op.window, op.t0, op.t1);
    CreatesOnly(st, op);
    hide *;
    ConsumeApplies(st, maxBuckets, op);
    FollowsConsume(st, Apply(st, maxBuckets, op), op, kept, sk);
  }

  lemma CreatesOnly(st: State, op: Op)
    requires op.ConsumeOp?
    ensures var made := StorageKey(op.key, op.window);
            forall sk :: Creates(st, op, sk)
                         <==> sk == made && op.limit > 0 && Filter(Bucket(st, made), op.t0 - op.window) == []
  {
    hide StorageKey, Filter, Bucket;
  }

  lemma ConsumeApplies(st: State, maxBuckets: nat, op: Op)
    requires op.ConsumeOp?
    ensures Apply(st, maxBuckets, op)
            == AfterConsume(st, maxBuckets, StorageKey(op.key, op.window), op.limit, op.window, op.t0, op.t1)
  {
    hide AfterConsume, StorageKey;
  }

  lemma FollowsConsume(st: State, r: State, op: Op, kept: seq<BucketKey>, sk: BucketKey)
    requires IsSubsequence(kept, st.order)
    requires sk in kept ==> !Creates(st, op, sk)
    requires forall other :: Creates(st, op, other) ==> other == sk
    requires r.order == kept || (Creates(st, op, sk) && r.order == kept + [sk])
    ensures Follows(st, r, op, kept)
  {
    hide IsSubsequence, Creates;
  }

  lemma {:induction false} PrefixSubsequence(order: seq<BucketKey>, p: string)
    ensures IsSubsequence(WithoutPrefix(order, p), order)
  {
    if order != [] {
      PrefixSubsequence(order[1..], p);
      if !StartsWith(order[0], p) {
        assert WithoutPrefix(order, p)[1..] == WithoutPrefix(order[1..], p);
      }
    }
  }

  lemma ApplyFollows(st: State, maxBuckets: nat, op: Op) returns (kept: seq<BucketKey>)
    requires Tidy(st)
    ensures Tidy(Apply(st, maxBuckets, op)) && Follows(st, Apply(st, maxBuckets, op), op, kept)
  {
    kept := Apply(st, maxBuckets, op).order;
    hide IsSubsequence, Filter, StorageKey, Pruned, AfterConsume, AfterReset, Tidy;
    match op
    case ConsumeOp(_, _, _, _, _) => kept := ConsumeFollows(st, maxBuckets, op);
    case CheckOp(key, _, window, t0, _) => PrunedTidy(st, StorageKey(key, window), t0 - window);
    case UsageOp(key, window, t0, _) => PrunedTidy(st, StorageKey(key, window), t0 - window);
    case ResetOp(key) => ResetTidy(st, key);
    case ResetAllOp => NothingTidy(st);
  }

  lemma ResetTidy(st: State, key: string)
    requires Tidy(st)
    ensures Tidy(AfterReset(st, key)) && IsSubsequence(AfterReset(st, key).order, st.order)
  {
    PrefixSubsequence(st.order, key + [':']);
    WithoutPrefixMembers(st.order, key + [':']);
    hide IsSubsequence, WithoutPrefix, StartsWith, Distinct;
  }

  lemma NothingTidy(st: State)
    ensures Tidy(EMPTY) && IsSubsequence(EMPTY.order, st.order)
  {
  }

  function RunLength(run: Run): nat {
    match run
    case Start => 0
    case Then(past, _) => RunLength(past) + 1
  }

  /** Which operation of the run last made the bucket, counted from 1. */
  function MadeBy(maxBuckets: nat, run: Run, sk: BucketKey): nat {
    match run
    case Start => 0
    case Then(past, last) =>
      if Creates(Final(EMPTY, maxBuckets, past), last, sk) then RunLength(run) else MadeBy(maxBuckets, past, sk)
  }

  ghost predicate ByAge(order: seq<BucketKey>, maxBuckets: nat, run: Run) {
    && (forall i :: 0 <= i < |order| ==> MadeBy(maxBuckets, run, order[i]) <= RunLength(run))
    && (forall i, j :: 0 <= i < j < |order| ==> MadeBy(maxBuckets, run, order[i]) < MadeBy(maxBuckets, run, order[j]))
  }

  lemma {:induction false} SubsequenceByAge(part: seq<BucketKey>, whole: seq<BucketKey>, maxBuckets: nat, run: Run)
    requires IsSubsequence(part, whole) && ByAge(whole, maxBuckets, run)
    ensures ByAge(part, maxBuckets, run)
    decreases |whole|
  {
    hide MadeBy;
    if part != [] {
      var rest := whole[1..];
      assert ByAge(rest, maxBuckets, run);
      if IsSubsequence(part, rest) {
        SubsequenceByAge(part, rest, maxBuckets, run);
      } else {
        SubsequenceByAge(part[1..], rest, maxBuckets, run);
        SubsequenceMembers(part[1..], rest);
        forall j | 0 < j < |part| ensures MadeBy(maxBuckets, run, part[0]) < MadeBy(maxBuckets, run, part[j]) {
          assert part[1..][j - 1] == part[j];
          assert part[1..][j - 1] in rest;
          var k :| 0 <= k < |rest| && rest[k] == part[j];
          assert whole[k + 1] == part[j];
        }
        forall i, j | 0 <= i < j < |part|
          ensures MadeBy(maxBuckets, run, part[i]) < MadeBy(maxBuckets, run, part[j])
        {
          if i > 0 { assert part[1..][i - 1] == part[i] && part[1..][j - 1] == part[j]; }
        }
        forall i | 0 <= i < |part| ensures MadeBy(maxBuckets, run, part[i]) <= RunLength(run) {
          if i > 0 { assert part[1..][i - 1] == part[i]; }
        }
      }
    }
  }

  /** In every run the map keeps its buckets in the order in which they were made, and none without stamps. */
  lemma {:induction false} OrderByAge(maxBuckets: nat, run: Run)
    ensures Tidy(Final(EMPTY, maxBuckets, run)) && ByAge(Final(EMPTY, maxBuckets, run).order, maxBuckets, run)
  {
    match run
    case Start =>
    case Then(past, last) => {
      OrderByAge(maxBuckets, past);
      var st := Final(EMPTY, maxBuckets, past);
      hide Tidy, Apply, Creates;
      var kept := ApplyFollows(st, maxBuckets, last);
      SubsequenceByAge(kept, st.order, maxBuckets, past);
      hide Follows, ByAge, Final;
      NewestLast(maxBuckets, past, last, kept);
    }
  }

  lemma NewestLast(maxBuckets: nat, past: Run, last: Op, kept: seq<BucketKey>)
    requires Follows(Final(EMPTY, maxBuckets, past), Final(EMPTY, maxBuckets, Then(past, last)), last, kept)
    requires ByAge(kept, maxBuckets, past)
    ensures ByAge(Final(EMPTY, maxBuckets, Then(past, last)).order, maxBuckets, Then(past, last))
  {
    hide Final, Creates, IsSubsequence;
    var run, order := Then(past, last), Final(EMPTY, maxBuckets, Then(past, last)).order;
    assert forall i :: 0 <= i < |kept| ==> MadeBy(maxBuckets, run, kept[i]) == MadeBy(maxBuckets, past, kept[i]);
  }
}
