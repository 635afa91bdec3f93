/**
 The sliding-window rate limiter (src/rate-limit/limiter.ts): a bounded map of buckets in insertion
 order, the operations on it, and runs of such operations under a clock that never runs backwards.
 */
module SlidingWindow {
  import opened Numbers
  import opened Sequences
  import opened Wrappers
  import opened SlidingBucket

  // ---------------------------------------------------------------------------------------------
  // Storage keys

  function Decimal(n: nat): string {
    if n < 10 then [('0' as int + n) as char] else Decimal(n / 10) + [('0' as int + n % 10) as char]
  }

  /** The key of a bucket in the map. */
  datatype BucketKey = BucketKey(text: string)

  /** `${key}:${window_ms}` */
  function StorageKey(key: string, window: nat): BucketKey {
    BucketKey(key + [':'] + Decimal(window))
  }

  predicate StartsWith(sk: BucketKey, p: string) {
    p <= sk.text
  }

  lemma {:induction false} DecimalDigits(n: nat)
    ensures |Decimal(n)| > 0 && ':' !in Decimal(n)
    ensures |Decimal(n)| == 1 <==> n < 10
  {
    if n >= 10 {
      DecimalDigits(n / 10);
    }
  }

  lemma {:induction false} DecimalInjective(m: nat, n: nat)
    requires Decimal(m) == Decimal(n)
    ensures m == n
  {
    DecimalDigits(m);
    DecimalDigits(n);
    var d := Decimal(m);
    if m < 10 {
      assert d[0] == ('0' as int + m) as char == ('0' as int + n) as char;
    } else {
      assert d[..|d| - 1] == Decimal(m / 10) == Decimal(n / 10);
      assert d[|d| - 1] == ('0' as int + m % 10) as char == ('0' as int + n % 10) as char;
      DecimalInjective(m / 10, n / 10);
    }
  }

  /** Keys and windows never share a bucket, whatever the key contains. */
  lemma StorageKeyInjective(key1: string, window1: nat, key2: string, window2: nat)
    ensures StorageKey(key1, window1) == StorageKey(key2, window2) <==> key1 == key2 && window1 == window2
  {
    if StorageKey(key1, window1) == StorageKey(key2, window2) {
      DecimalDigits(window1);
      DecimalDigits(window2);
      LastSplitUnique(key1, key2, ':', Decimal(window1), Decimal(window2));
      DecimalInjective(window1, window2);
    }
  }

  // ---------------------------------------------------------------------------------------------
  // The map of buckets, in insertion order

  datatype State = State(order: seq<BucketKey>, buckets: map<BucketKey, seq<int>>)

  const EMPTY: State := State([], map[])

  ghost predicate Consistent(st: State) {
    && Distinct(st.order)
    && (forall sk :: sk in st.order <==> sk in st.buckets)
  }

  function Bucket(st: State, sk: BucketKey): seq<int> {
    if sk in st.buckets then st.buckets[sk] else []
  }

  function Delete(st: State, sk: BucketKey): State {
    if sk in st.buckets then State(Without(st.order, sk), st.buckets - {sk}) else st
  }

  function Set(st: State, sk: BucketKey, stamps: seq<int>): State {
    State(if sk in st.buckets then st.order else st.order + [sk], st.buckets[sk := stamps])
  }

  /** What `getValid` leaves behind. */
  function Pruned(st: State, sk: BucketKey, cutoff: int): State {
    if sk !in st.buckets then st
    else
      var valid := Filter(st.buckets[sk], cutoff);
      if valid == [] then Delete(st, sk) else Set(st, sk, valid)
  }

  /** Ninety percent of the cap: what eviction shrinks the map to. */
  function EvictionTarget(maxBuckets: nat): nat {
    9 * maxBuckets / 10
  }

  function DropOldest(st: State, n: nat): State
    requires n <= |st.order|
  {
    State(st.order[n..], map sk | sk in st.buckets && sk !in st.order[..n] :: st.buckets[sk])
  }

  function Evicted(st: State, maxBuckets: nat): State {
    var target := EvictionTarget(maxBuckets);
    if |st.order| < maxBuckets || |st.order| <= target then st else DropOldest(st, |st.order| - target)
  }

  /**
   A full map keeps exactly its newest buckets, nine tenths of the cap rounded down, in their order and with their
   stamps; a map that is not full keeps all.
   */
  lemma EvictionKeepsNewest(st: State, maxBuckets: nat)
    requires Consistent(st)
    ensures var r := Evicted(st, maxBuckets);
            && (|st.order| < maxBuckets ==> r == st)
            && (|st.order| >= maxBuckets ==> 10 * |r.order| <= 9 * maxBuckets < 10 * |r.order| + 10)
            && |r.order| <= |st.order| && r.order == st.order[|st.order| - |r.order|..]
            && (forall sk :: sk in r.buckets <==> sk in r.order)
            && (forall sk :: sk in r.buckets ==> r.buckets[sk] == st.buckets[sk])
  {
    var target := EvictionTarget(maxBuckets);
    if |st.order| >= maxBuckets && |st.order| > target {
      DropOldestConsistent(st, |st.order| - target);
    }
  }

  function AfterConsume(st: State, maxBuckets: nat, sk: BucketKey, limit: int, window: nat, t0: int, t1: int): State {
    var valid := Filter(Bucket(st, sk), t0 - window);
    var pruned := Pruned(st, sk, t0 - window);
    if |valid| >= limit then pruned
    else Set(if sk in pruned.buckets then pruned else Evicted(pruned, maxBuckets), sk, valid + [t1])
  }

  function WithoutPrefix(order: seq<BucketKey>, p: string): seq<BucketKey> {
    if order == [] then []
    else if StartsWith(order[0], p) then WithoutPrefix(order[1..], p)
    else [order[0]] + WithoutPrefix(order[1..], p)
  }

  function AfterReset(st: State, key: string): State {
    State(WithoutPrefix(st.order, key + [':']),
          map sk | sk in st.buckets && !StartsWith(sk, key + [':']) :: st.buckets[sk])
  }

  /** A reset reaches exactly the key itself and the keys nested below it. */
  lemma ResetReaches(key: string, other: string, window: nat)
    ensures StartsWith(StorageKey(other, window), key + [':']) <==> other == key || key + [':'] <= other
  {
    var p := key + [':'];
    var sk := StorageKey(other, window).text;
    DecimalDigits(window);
    assert sk[..|other|] == other;
    if p <= sk {
      if |p| <= |other| {
        assert p == sk[..|p|] == other[..|p|];
      } else {
        assert sk[|key|] == ':' == p[|key|];
        assert forall i :: |other| < i < |sk| ==> sk[i] == Decimal(window)[i - |other| - 1];
        assert |key| == |other|;
        assert key == p[..|key|] == sk[..|key|] == other;
      }
    }
    if other == key {
      assert sk == p + Decimal(window);
    }
    if p <= other {
      assert p == other[..|p|] == sk[..|p|];
    }
  }

  lemma {:induction false} WithoutPrefixMembers(order: seq<BucketKey>, p: string)
    requires Distinct(order)
    ensures forall k :: k in WithoutPrefix(order, p) <==> k in order && !StartsWith(k, p)
    ensures Distinct(WithoutPrefix(order, p))
    ensures |WithoutPrefix(order, p)| <= |order|
  {
    if order != [] {
      assert order == [order[0]] + order[1..];
      assert order[0] !in order[1..];
      WithoutPrefixMembers(order[1..], p);
    }
  }

  lemma DeleteConsistent(st: State, sk: BucketKey)
    requires Consistent(st)
    ensures Consistent(Delete(st, sk))
    ensures |Delete(st, sk).order| == if sk in st.buckets then |st.order| - 1 else |st.order|
  {
    WithoutMembers(st.order, sk);
  }

  lemma DropOldestConsistent(st: State, n: nat)
    requires Consistent(st) && n <= |st.order|
    ensures Consistent(DropOldest(st, n))
  {
    DistinctDrop(st.order, n);
  }

  // ---------------------------------------------------------------------------------------------
  // Operations and runs

  datatype Op =
    | ConsumeOp(key: string, limit: int, window: nat, t0: int, t1: int)
    | CheckOp(key: string, limit: int, window: nat, t0: int, t1: int)
    | UsageOp(key: string, window: nat, t0: int, t1: int)
    | ResetOp(key: string)
    | ResetAllOp

  predicate IsReset(op: Op) {
    op.ResetOp? || op.ResetAllOp?
  }

  /** A sequence of operations, the latest outermost. */
  datatype Run = Start | Then(past: Run, last: Op)

  predicate OnBucket(op: Op, sk: BucketKey) {
    !IsReset(op) && StorageKey(op.key, op.window) == sk
  }

  function Apply(st: State, maxBuckets: nat, op: Op): State {
    match op
    case ConsumeOp(key, limit, window, t0, t1) =>
      AfterConsume(st, maxBuckets, StorageKey(key, window), limit, window, t0, t1)
    case CheckOp(key, _, window, t0, _) => Pruned(st, StorageKey(key, window), t0 - window)
    case UsageOp(key, window, t0, _) => Pruned(st, StorageKey(key, window), t0 - window)
    case ResetOp(key) => AfterReset(st, key)
    case ResetAllOp => EMPTY
  }

  function Final(st: State, maxBuckets: nat, run: Run): State {
    match run
    case Start => st
    case Then(past, last) => Apply(Final(st, maxBuckets, past), maxBuckets, last)
  }

  /** The last clock reading of a run that starts at `from`. */
  function RunClock(run: Run, from: int): int {
    match run
    case Start => from
    case Then(past, last) => if IsReset(last) then RunClock(past, from) else last.t1
  }

  predicate RunMonotone(run: Run, from: int) {
    match run
    case Start => true
    case Then(past, last) => RunMonotone(past, from) && (IsReset(last) || RunClock(past, from) <= last.t0 <= last.t1)
  }

  /** The operation throws the bucket away: a reset, or an eviction on behalf of another bucket. */
  predicate Loses(st: State, maxBuckets: nat, op: Op, sk: BucketKey) {
    sk in st.buckets && sk !in Apply(st, maxBuckets, op).buckets && !OnBucket(op, sk)
  }

  predicate KeepsBucket(st: State, maxBuckets: nat, run: Run, sk: BucketKey) {
    match run
    case Start => true
    case Then(past, last) =>
      KeepsBucket(st, maxBuckets, past, sk) && !Loses(Final(st, maxBuckets, past), maxBuckets, last, sk)
  }

  /** The answer of a `check` or `consume` to a limiter whose bucket holds the given stamps. */
  function AnswerFrom(stamps: seq<int>, op: Op): Answer
    requires op.ConsumeOp? || op.CheckOp?
  {
    var valid := Filter(stamps, op.t0 - op.window);
    if op.ConsumeOp? then ConsumeAnswer(valid, op.limit, op.window, op.t1)
    else CheckAnswer(valid, op.limit, op.window, op.t1)
  }

  function AnswerOf(st: State, op: Op): Answer
    requires op.ConsumeOp? || op.CheckOp?
  {
    AnswerFrom(Bucket(st, StorageKey(op.key, op.window)), op)
  }

  /** The stamps a run admits to a bucket: a log that never forgets. */
  function Admitted(st: State, maxBuckets: nat, run: Run, sk: BucketKey): seq<int> {
    match run
    case Start => []
    case Then(past, last) =>
      Admitted(st, maxBuckets, past, sk)
      + if last.ConsumeOp? && OnBucket(last, sk) && AnswerOf(Final(st, maxBuckets, past), last).allowed then [last.t1]
        else []
  }

  /** The stamps that it admits to consumes with no more than this limit. */
  function AdmittedUnder(st: State, maxBuckets: nat, run: Run, sk: BucketKey, limit: int): seq<int> {
    match run
    case Start => []
    case Then(past, last) =>
      AdmittedUnder(st, maxBuckets, past, sk, limit)
      + if last.ConsumeOp? && OnBucket(last, sk) && last.limit <= limit
           && AnswerOf(Final(st, maxBuckets, past), last).allowed then [last.t1] else []
  }

  /** Every `consume` of the run on this bucket asks for the same limit. */
  predicate RunLimit(run: Run, sk: BucketKey, limit: int) {
    match run
    case Start => true
    case Then(past, last) =>
      RunLimit(past, sk, limit) && (last.ConsumeOp? && OnBucket(last, sk) ==> last.limit == limit)
  }

  /** No `consume` of the run on this bucket prunes later than `time`. */
  predicate RunConsumesBy(run: Run, sk: BucketKey, time: int) {
    match run
    case Start => true
    case Then(past, last) =>
      RunConsumesBy(past, sk, time) && (last.ConsumeOp? && OnBucket(last, sk) ==> last.t0 <= time)
  }

  // ---------------------------------------------------------------------------------------------
  // What a run does to one bucket

  function ToTouch(op: Op): Touch
    requires !IsReset(op)
  {
    Touch(op.ConsumeOp?, if op.UsageOp? then 0 else op.limit, op.t0, op.t1)
  }

  /** The operations of a run that are on this bucket. */
  function Touches(run: Run, sk: BucketKey): History {
    match run
    case Start => Untouched
    case Then(past, last) => if OnBucket(last, sk) then Touched(Touches(past, sk), ToTouch(last)) else Touches(past, sk)
  }

  lemma PrunedBucket(st: State, sk: BucketKey, cutoff: int, k: BucketKey)
    ensures Bucket(Pruned(st, sk, cutoff), k) == if k == sk then Filter(Bucket(st, sk), cutoff) else Bucket(st, k)
  {
    assert Filter([], cutoff) == [];
    hide Filter, Without;
  }

  lemma ConsumedBucket(st: State, maxBuckets: nat, sk: BucketKey, limit: int, window: nat, t0: int, t1: int,
                       k: BucketKey)
    requires k == sk || k !in st.buckets || k in AfterConsume(st, maxBuckets, sk, limit, window, t0, t1).buckets
    ensures Bucket(AfterConsume(st, maxBuckets, sk, limit, window, t0, t1), k)
            == if k == sk then BucketAfter(Bucket(st, sk), Touch(true, limit, t0, t1), window) else Bucket(st, k)
  {
    PrunedBucket(st, sk, t0 - window, sk);
    PrunedBucket(st, sk, t0 - window, k);
    var pruned := Pruned(st, sk, t0 - window);
    PrunedKeeps(st, sk, t0 - window);
    EvictedKeeps(pruned, maxBuckets);
    AppendNothing(Filter(Bucket(st, sk), t0 - window));
    hide Filter, Pruned, Evicted;
  }

  lemma PrunedKeeps(st: State, sk: BucketKey, cutoff: int)
    ensures forall k :: k in Pruned(st, sk, cutoff).buckets ==> k in st.buckets
  {
    hide Filter, Without;
  }

  lemma EvictedKeeps(st: State, maxBuckets: nat)
    ensures forall k :: k in Evicted(st, maxBuckets).buckets ==>
              k in st.buckets && Evicted(st, maxBuckets).buckets[k] == st.buckets[k]
  {
    hide EvictionTarget;
  }

  lemma BucketAfterOp(st: State, maxBuckets: nat, op: Op, sk: BucketKey)
    requires !Loses(st, maxBuckets, op, sk)
    ensures Bucket(Apply(st, maxBuckets, op), sk) ==
            if OnBucket(op, sk) then BucketAfter(Bucket(st, sk), ToTouch(op), op.window) else Bucket(st, sk)
  {
    hide Filter, AfterConsume, Pruned, StorageKey, StartsWith;
    match op
    case ConsumeOp(key, limit, window, t0, t1) =>
      ConsumedBucket(st, maxBuckets, StorageKey(key, window), limit, window, t0, t1, sk);
    case CheckOp(key, _, window, t0, _) =>
      PrunedBucket(st, StorageKey(key, window), t0 - window, sk);
      AppendNothing(Filter(Bucket(st, sk), t0 - window));
    case UsageOp(key, window, t0, _) =>
      PrunedBucket(st, StorageKey(key, window), t0 - window, sk);
      AppendNothing(Filter(Bucket(st, sk), t0 - window));
    case ResetOp(_) =>
    case ResetAllOp =>
  }

  /** A bucket that is not thrown away lives as if its own operations were the only ones. */
  lemma {:induction false} BucketOfRun(st: State, maxBuckets: nat, run: Run, key: string, window: nat)
    requires KeepsBucket(st, maxBuckets, run, StorageKey(key, window))
    ensures var sk := StorageKey(key, window);
            && Bucket(Final(st, maxBuckets, run), sk) == BucketRun(Bucket(st, sk), Touches(run, sk), window)
            && Admitted(st, maxBuckets, run, sk) == Log(Bucket(st, sk), Touches(run, sk), window)
  {
    hide Apply, Filter;
    match run
    case Start =>
    case Then(past, last) =>
      BucketOfRun(st, maxBuckets, past, key, window);
      BucketAfterOp(Final(st, maxBuckets, past), maxBuckets, last, StorageKey(key, window));
      if OnBucket(last, StorageKey(key, window)) {
        StorageKeyInjective(last.key, last.window, key, window);
      }
  }

  lemma {:induction false} TouchesMonotone(run: Run, sk: BucketKey, from: int)
    requires RunMonotone(run, from)
    ensures Monotone(Touches(run, sk), from) && Clock(Touches(run, sk), from) <= RunClock(run, from)
  {
    match run
    case Start =>
    case Then(past, last) => TouchesMonotone(past, sk, from);
  }

  lemma {:induction false} TouchesLimited(run: Run, sk: BucketKey, limit: int, time: int)
    ensures RunLimit(run, sk, limit) ==> FixedLimit(Touches(run, sk), limit)
    ensures RunConsumesBy(run, sk, time) ==> ConsumesBy(Touches(run, sk), time)
  {
    match run
    case Start =>
    case Then(past, last) => TouchesLimited(past, sk, limit, time);
  }

  // ---------------------------------------------------------------------------------------------
  // The promises

  /** Forgetting expired stamps is not observable: every answer is the one the full log would give. */
  lemma AnswersAsLog(st: State, maxBuckets: nat, run: Run, op: Op, from: int)
    requires op.ConsumeOp? || op.CheckOp?
    requires RunMonotone(Then(run, op), from)
    requires StorageKey(op.key, op.window) !in st.buckets
    requires KeepsBucket(st, maxBuckets, run, StorageKey(op.key, op.window))
    ensures AnswerOf(Final(st, maxBuckets, run), op)
            == AnswerFrom(Admitted(st, maxBuckets, run, StorageKey(op.key, op.window)), op)
  {
    hide Apply, Filter;
    var sk := StorageKey(op.key, op.window);
    BucketOfRun(st, maxBuckets, run, op.key, op.window);
    TouchesMonotone(run, sk, from);
    PrunedAsLog([], Touches(run, sk), op.window, from, op.t0 - op.window);
    assert [] + Log([], Touches(run, sk), op.window) == Log([], Touches(run, sk), op.window);
  }

  /**
   The window bound. From a moment at which the bucket does not exist, in every run that does not
   throw it away, every closed interval of the window's length holds at most `limit` admitted requests.
   */
  lemma AdmittedWithinLimit(st: State, maxBuckets: nat, run: Run, key: string, window: nat, limit: int, from: int,
                            lo: int)
    requires StorageKey(key, window) !in st.buckets
    requires RunMonotone(run, from) && KeepsBucket(st, maxBuckets, run, StorageKey(key, window))
    requires RunLimit(run, StorageKey(key, window), limit)
    ensures CountIn(Admitted(st, maxBuckets, run, StorageKey(key, window)), lo, lo + window) <= Max(limit, 0)
  {
    var sk := StorageKey(key, window);
    BucketOfRun(st, maxBuckets, run, key, window);
    TouchesMonotone(run, sk, from);
    TouchesLimited(run, sk, limit, 0);
    WindowBound(Touches(run, sk), window, limit, from, lo);
  }

  lemma {:induction false} UnderOfRun(st: State, maxBuckets: nat, run: Run, key: string, window: nat, limit: int)
    requires KeepsBucket(st, maxBuckets, run, StorageKey(key, window))
    ensures var sk := StorageKey(key, window);
            AdmittedUnder(st, maxBuckets, run, sk, limit) == LogUnder(Bucket(st, sk), Touches(run, sk), window, limit)
  {
    hide Apply, Filter;
    match run
    case Start =>
    case Then(past, last) =>
      UnderOfRun(st, maxBuckets, past, key, window, limit);
      BucketOfRun(st, maxBuckets, past, key, window);
      if OnBucket(last, StorageKey(key, window)) {
        StorageKeyInjective(last.key, last.window, key, window);
      }
  }

  /**
   The bound when requests ask for different limits on one bucket: the requests admitted under this limit or a
   lower one still number at most `limit` in every closed interval of the window's length.
   */
  lemma AdmittedUnderLimit(st: State, maxBuckets: nat, run: Run, key: string, window: nat, limit: int, from: int,
                           lo: int)
    requires StorageKey(key, window) !in st.buckets
    requires RunMonotone(run, from) && KeepsBucket(st, maxBuckets, run, StorageKey(key, window))
    ensures CountIn(AdmittedUnder(st, maxBuckets, run, StorageKey(key, window), limit), lo, lo + window)
            <= Max(limit, 0)
  {
    var sk := StorageKey(key, window);
    UnderOfRun(st, maxBuckets, run, key, window, limit);
    TouchesMonotone(run, sk, from);
    WindowBoundUnder(Touches(run, sk), window, limit, from, lo);
  }

  /** The same consume again, `n` times at the time of `op`. */
  function Again(op: Op, n: nat): Run
    requires op.ConsumeOp? || op.CheckOp?
  {
    if n == 0 then Start else Then(Again(op, n - 1), ConsumeOp(op.key, op.limit, op.window, op.t0, op.t1))
  }

  lemma {:induction false} AgainTouches(st: State, maxBuckets: nat, op: Op, n: nat)
    requires op.ConsumeOp? || op.CheckOp?
    ensures var sk := StorageKey(op.key, op.window);
            && KeepsBucket(st, maxBuckets, Again(op, n), sk)
            && Touches(Again(op, n), sk) == Rush(ToTouch(op).(consume := true), n)
  {
    hide StorageKey, Apply;
    if n > 0 { AgainTouches(st, maxBuckets, op, n - 1); }
  }

  /**
   What an answer of the limiter promises, in every state: `remaining` is how many further requests are admitted
   at that time, exactly the denials name a pause, and the limit is the one that was asked for.
   */
  lemma RemainingExact(st: State, maxBuckets: nat, op: Op, n: nat)
    requires (op.ConsumeOp? || op.CheckOp?) && op.t0 <= op.t1
    ensures var answer, sk := AnswerOf(st, op), StorageKey(op.key, op.window);
            && |Admitted(Apply(st, maxBuckets, op), maxBuckets, Again(op, n), sk)| == Min(n, answer.remaining)
            && (answer.allowed <==> |Admitted(st, maxBuckets, Again(op, 1), sk)| == 1)
            && (answer.retryAfter.Some? <==> !answer.allowed) && answer.limit == op.limit
  {
    var sk, touch := StorageKey(op.key, op.window), ToTouch(op);
    hide StorageKey, Apply, Filter, AnswerOf, Log, Again, CheckAnswer, ConsumeAnswer;
    var after := Apply(st, maxBuckets, op);
    BucketAfterOp(st, maxBuckets, op, sk);
    AgainTouches(after, maxBuckets, op, n);
    BucketOfRun(after, maxBuckets, Again(op, n), op.key, op.window);
    AgainTouches(st, maxBuckets, op, 1);
    BucketOfRun(st, maxBuckets, Again(op, 1), op.key, op.window);
    RemainingIsWhatFollows(Bucket(st, sk), touch, op.window, n);
    RetryAfterTells(Bucket(st, sk), touch, op.window);
    AnswerIsIn(st, op);
  }

  lemma AnswerIsIn(st: State, op: Op)
    requires op.ConsumeOp? || op.CheckOp?
    ensures AnswerOf(st, op) == AnswerIn(Bucket(st, StorageKey(op.key, op.window)), ToTouch(op), op.window)
  {
    hide StorageKey, Filter;
  }

  /** A consume with this limit is denied, in a run that has kept the bucket since a time when it did not exist. */
  predicate DeniedIn(st0: State, maxBuckets: nat, run: Run, denied: Op, sk: BucketKey, limit: int, from: int) {
    && sk !in st0.buckets
    && denied.ConsumeOp? && OnBucket(denied, sk)
    && RunMonotone(Then(run, denied), from) && KeepsBucket(st0, maxBuckets, Then(run, denied), sk)
    && RunLimit(Then(run, denied), sk, limit)
    && !AnswerOf(Final(st0, maxBuckets, run), denied).allowed
  }

  /** A later consume, with the bucket kept and no other consume in between after `resetAt`. */
  predicate AskedAgain(st: State, maxBuckets: nat, more: Run, next: Op, sk: BucketKey, limit: int, from: int,
                       resetAt: int)
  {
    && next.ConsumeOp? && OnBucket(next, sk)
    && RunMonotone(Then(more, next), from) && KeepsBucket(st, maxBuckets, more, sk)
    && RunLimit(Then(more, next), sk, limit) && RunConsumesBy(more, sk, resetAt)
  }

  predicate DeniedThenAsked(st0: State, maxBuckets: nat, run: Run, denied: Op, more: Run, next: Op, sk: BucketKey,
                            limit: int, from: int)
  {
    && DeniedIn(st0, maxBuckets, run, denied, sk, limit, from)
    && AskedAgain(Final(st0, maxBuckets, Then(run, denied)), maxBuckets, more, next, sk, limit, denied.t1,
                  AnswerOf(Final(st0, maxBuckets, run), denied).resetAt)
  }

  /** A denial in a run is a denial in the life of its bucket. */
  lemma DeniedTouch(st0: State, maxBuckets: nat, run: Run, denied: Op, sk: BucketKey, limit: int, from: int)
    requires DeniedIn(st0, maxBuckets, run, denied, sk, limit, from)
    ensures var h, d, window := Touches(run, sk), ToTouch(denied), denied.window;
            && d.consume && d.limit == limit && Monotone(Touched(h, d), from) && FixedLimit(Touched(h, d), limit)
            && !Admits(BucketRun([], h, window), d, window)
            && DeniedUntil(BucketRun([], h, window), d, window) == AnswerOf(Final(st0, maxBuckets, run), denied).resetAt
            && Bucket(Final(st0, maxBuckets, Then(run, denied)), sk) == BucketRun([], Touched(h, d), window)
  {
    hide Apply, Filter, StorageKey, RunMonotone, RunLimit, Monotone, FixedLimit, Log, Admitted;
    KeptBefore(st0, maxBuckets, run, denied, sk);
    BucketOfRun(st0, maxBuckets, run, denied.key, denied.window);
    BucketOfRun(st0, maxBuckets, Then(run, denied), denied.key, denied.window);
    TouchesMonotone(Then(run, denied), sk, from);
    TouchesLimited(Then(run, denied), sk, limit, 0);
    TouchesThen(run, denied, sk);
    hide BucketRun, Final, KeepsBucket, Touches;
  }

  lemma KeptBefore(st: State, maxBuckets: nat, past: Run, last: Op, sk: BucketKey)
    requires KeepsBucket(st, maxBuckets, Then(past, last), sk)
    ensures KeepsBucket(st, maxBuckets, past, sk)
  {
    hide Final, Loses;
  }

  lemma TouchesThen(past: Run, last: Op, sk: BucketKey)
    requires OnBucket(last, sk)
    ensures Touches(Then(past, last), sk) == Touched(Touches(past, sk), ToTouch(last))
  {
    hide StorageKey;
  }

  lemma AskedTouch(st: State, maxBuckets: nat, more: Run, next: Op, key: string, window: nat, limit: int, from: int,
                   resetAt: int)
    requires AskedAgain(st, maxBuckets, more, next, StorageKey(key, window), limit, from, resetAt)
    ensures var sk := StorageKey(key, window);
            var m, n := Touches(more, sk), ToTouch(next);
            && n.consume && n.limit == limit && Monotone(Touched(m, n), from) && FixedLimit(m, limit)
            && ConsumesBy(m, resetAt)
            && (AnswerOf(Final(st, maxBuckets, more), next).allowed
                <==> Admits(BucketRun(Bucket(st, sk), m, window), n, window))
  {
    hide Apply, Filter, StorageKey, RunMonotone, FixedLimit, Monotone, Log, Admitted, Final, KeepsBucket, Touches,
         RunLimit, RunConsumesBy, ConsumesBy, BucketRun;
    var sk := StorageKey(key, window);
    StorageKeyInjective(next.key, next.window, key, window);
    LimitBefore(more, next, sk, limit);
    BucketOfRun(st, maxBuckets, more, key, window);
    TouchesMonotone(Then(more, next), sk, from);
    TouchesLimited(more, sk, limit, resetAt);
    TouchesThen(more, next, sk);
  }

  lemma LimitBefore(past: Run, last: Op, sk: BucketKey, limit: int)
    requires RunLimit(Then(past, last), sk, limit)
    ensures RunLimit(past, sk, limit) && (last.ConsumeOp? && OnBucket(last, sk) ==> last.limit == limit)
  {
    hide StorageKey;
  }

  /**
   When a denied client gets through again: in every run that keeps the bucket, a consume is admitted if and only
   if it reads a time strictly later than the `reset_at` of the denial, and the limit is positive.
   */
  lemma ResetAtExact(st0: State, maxBuckets: nat, run: Run, denied: Op, more: Run, next: Op, sk: BucketKey,
                     limit: int, from: int)
    requires DeniedThenAsked(st0, maxBuckets, run, denied, more, next, sk, limit, from)
    ensures AnswerOf(Final(Final(st0, maxBuckets, Then(run, denied)), maxBuckets, more), next).allowed
            <==> limit >= 1 && next.t0 > AnswerOf(Final(st0, maxBuckets, run), denied).resetAt
  {
    hide Final, AnswerOf, BucketRun, Monotone, FixedLimit, ConsumesBy, RunMonotone, KeepsBucket, RunLimit, Admits,
         RunConsumesBy, DeniedUntil, StorageKey, Touches;
    var st := Final(st0, maxBuckets, Then(run, denied));
    DeniedTouch(st0, maxBuckets, run, denied, sk, limit, from);
    AskedTouch(st, maxBuckets, more, next, denied.key, denied.window, limit, denied.t1,
               AnswerOf(Final(st0, maxBuckets, run), denied).resetAt);
    DenialEndsAtReset(Touches(run, sk), ToTouch(denied), Touches(more, sk), ToTouch(next), denied.window, limit, from);
  }

  /** Every denial under this limit is lifted by its `reset_at`, and not before, in all runs that keep the bucket. */
  ghost predicate RunsKeepReset(maxBuckets: nat, sk: BucketKey, limit: int) {
    forall st0, run, denied, more, next, from ::
      DeniedThenAsked(st0, maxBuckets, run, denied, more, next, sk, limit, from) ==>
        (AnswerOf(Final(Final(st0, maxBuckets, Then(run, denied)), maxBuckets, more), next).allowed
         <==> next.t0 > AnswerOf(Final(st0, maxBuckets, run), denied).resetAt)
  }

  /** The limiter keeps the promise of `reset_at` for the positive limits and for no others, on every bucket. */
  lemma ResetAtNeedsPositiveLimit(maxBuckets: nat, key: string, window: nat, limit: int)
    ensures RunsKeepReset(maxBuckets, StorageKey(key, window), limit) <==> limit >= 1
  {
    hide Final, AnswerOf, StorageKey;
    var sk := StorageKey(key, window);
    if limit >= 1 {
      forall st0, run, denied, more, next, from
        | DeniedThenAsked(st0, maxBuckets, run, denied, more, next, sk, limit, from)
        ensures AnswerOf(Final(Final(st0, maxBuckets, Then(run, denied)), maxBuckets, more), next).allowed
                <==> next.t0 > AnswerOf(Final(st0, maxBuckets, run), denied).resetAt
      {
        ResetAtExact(st0, maxBuckets, run, denied, more, next, sk, limit, from);
      }
    } else {
      ZeroLimitNeverAdmits(maxBuckets, key, window, limit);
    }
  }

  /** With limit zero, say, a client that comes back after the `reset_at` it was given is denied again. */
  lemma ZeroLimitNeverAdmits(maxBuckets: nat, key: string, window: nat, limit: int)
    requires limit <= 0
    ensures var denied := ConsumeOp(key, limit, window, 0, 0);
            var next := ConsumeOp(key, limit, window, window + 1, window + 1);
            && DeniedThenAsked(EMPTY, maxBuckets, Start, denied, Start, next, StorageKey(key, window), limit, 0)
            && AnswerOf(Final(EMPTY, maxBuckets, Start), denied).resetAt == window < next.t0
            && !AnswerOf(Final(Final(EMPTY, maxBuckets, Then(Start, denied)), maxBuckets, Start), next).allowed
  {
    var denied, sk := ConsumeOp(key, limit, window, 0, 0), StorageKey(key, window);
    var next := ConsumeOp(key, limit, window, window + 1, window + 1);
    DeniedAtOnce(maxBuckets, denied, sk);
    EmptyAnswer(next);
    hide StorageKey, Apply, AnswerOf;
    assert AskedAgain(EMPTY, maxBuckets, Start, next, sk, limit, 0, window);
  }

  /** The answer of a consume without a bucket. */
  lemma EmptyAnswer(op: Op)
    requires op.ConsumeOp?
    ensures AnswerOf(EMPTY, op) == ConsumeAnswer([], op.limit, op.window, op.t1)
  {
    hide StorageKey;
  }

  lemma DeniedAtOnce(maxBuckets: nat, denied: Op, sk: BucketKey)
    requires denied.ConsumeOp? && denied.limit <= 0 && OnBucket(denied, sk) && denied.t0 == denied.t1 == 0
    ensures DeniedIn(EMPTY, maxBuckets, Start, denied, sk, denied.limit, 0)
    ensures AnswerOf(EMPTY, denied).resetAt == denied.window
    ensures Final(EMPTY, maxBuckets, Then(Start, denied)) == EMPTY
  {
    EmptyAnswer(denied);
    hide StorageKey, Evicted, AnswerOf;
    assert Apply(EMPTY, maxBuckets, denied) == EMPTY;
    assert RunMonotone(Then(Start, denied), 0);
    assert RunLimit(Then(Start, denied), sk, denied.limit);
    assert KeepsBucket(EMPTY, maxBuckets, Then(Start, denied), sk);
    assert !AnswerOf(Final(EMPTY, maxBuckets, Start), denied).allowed;
  }

  // ---------------------------------------------------------------------------------------------
  // The cap

  lemma SetConsistent(st: State, sk: BucketKey, stamps: seq<int>)
    requires Consistent(st)
    ensures Consistent(Set(st, sk, stamps))
  {
    if sk !in st.buckets {
      DistinctSnoc(st.order, sk);
    }
  }

  lemma PruneConsistent(st: State, sk: BucketKey, cutoff: int)
    requires Consistent(st)
    ensures Consistent(Pruned(st, sk, cutoff)) && |Pruned(st, sk, cutoff).order| <= |st.order|
  {
    DeleteConsistent(st, sk);
  }

  lemma ConsumeWithinCap(st: State, maxBuckets: nat, sk: BucketKey, limit: int, window: nat, t0: int, t1: int)
    requires Consistent(st) && |st.order| <= maxBuckets && maxBuckets >= 1
    ensures var r := AfterConsume(st, maxBuckets, sk, limit, window, t0, t1); Consistent(r) && |r.order| <= maxBuckets
  {
    var pruned := Pruned(st, sk, t0 - window);
    PruneConsistent(st, sk, t0 - window);
    var valid := Filter(Bucket(st, sk), t0 - window);
    hide Consistent, Pruned, Filter, Bucket, Evicted;
    if |valid| < limit {
      EvictedBelowCap(pruned, maxBuckets);
      SetConsistent(pruned, sk, valid + [t1]);
      SetConsistent(Evicted(pruned, maxBuckets), sk, valid + [t1]);
    }
  }

  lemma EvictedBelowCap(st: State, maxBuckets: nat)
    requires Consistent(st) && |st.order| <= maxBuckets && maxBuckets >= 1
    ensures Consistent(Evicted(st, maxBuckets)) && |Evicted(st, maxBuckets).order| < maxBuckets
  {
    var target := EvictionTarget(maxBuckets);
    assert target < maxBuckets;
    if |st.order| >= maxBuckets {
      DropOldestConsistent(st, |st.order| - target);
    }
    hide Consistent, EvictionTarget;
  }

  lemma ApplyWithinCap(st: State, maxBuckets: nat, op: Op)
    requires Consistent(st) && |st.order| <= maxBuckets && maxBuckets >= 1
    ensures Consistent(Apply(st, maxBuckets, op)) && |Apply(st, maxBuckets, op).order| <= maxBuckets
  {
    hide AfterConsume, Pruned, Filter;
    match op
    case ConsumeOp(key, limit, window, t0, t1) =>
      ConsumeWithinCap(st, maxBuckets, StorageKey(key, window), limit, window, t0, t1);
    case CheckOp(key, _, window, t0, _) => PruneConsistent(st, StorageKey(key, window), t0 - window);
    case UsageOp(key, window, t0, _) => PruneConsistent(st, StorageKey(key, window), t0 - window);
    case ResetOp(key) => WithoutPrefixMembers(st.order, key + [':']);
    case ResetAllOp =>
  }

  /** The map of buckets never exceeds its cap, whatever the cap (from 1 on) and whatever the run. */
  lemma {:induction false} RunWithinCap(st: State, maxBuckets: nat, run: Run)
    requires Consistent(st) && |st.order| <= maxBuckets && maxBuckets >= 1
    ensures Consistent(Final(st, maxBuckets, run)) && |Final(st, maxBuckets, run).order| <= maxBuckets
  {
    match run
    case Start =>
    case Then(past, last) =>
      RunWithinCap(st, maxBuckets, past);
      ApplyWithinCap(Final(st, maxBuckets, past), maxBuckets, last);
  }

  // ---------------------------------------------------------------------------------------------
  // The class

  class SlidingWindowLimiter {
    var order: seq<BucketKey>
    var store: map<BucketKey, seq<int>>
    const maxBuckets: nat

    constructor (maxBuckets: nat)
      ensures this.maxBuckets == maxBuckets && Value() == EMPTY && Valid()
    {
      this.maxBuckets := maxBuckets;
      order, store := [], map[];
    }

    ghost predicate Valid()
      reads this
    {
      Consistent(Value())
    }

    function Value(): State
      reads this
    {
      State(order, store)
    }

    method GetValid(key: string, window: nat, now: int) returns (valid: seq<int>)
      requires Valid()
      modifies this
      ensures Valid()
      ensures valid == Filter(Bucket(old(Value()), StorageKey(key, window)), now - window)
      ensures Value() == Pruned(old(Value()), StorageKey(key, window), now - window)
    {
      var sk := StorageKey(key, window);
      var cutoff := now - window;
      PruneConsistent(Value(), sk, cutoff);
      if sk !in store {
        return [];
      }
      var all := store[sk];
      valid := Filter(all, cutoff);
      if |valid| == 0 {
        order, store := Without(order, sk), store - {sk};
      } else if |valid| != |all| {
        store := store[sk := valid];
      } else {
        FilterShorter(all, cutoff);
      }
    }

    method EvictIfFull()
      requires Consistent(State(order, store))
      modifies this
      ensures Consistent(State(order, store))
      ensures State(order, store) == Evicted(old(State(order, store)), maxBuckets)
    {
      hide *;
      ghost var before := State(order, store);
      NothingToEvict(before, maxBuckets);
      if |order| < maxBuckets {
        return;
      }
      var target := EvictionTarget(maxBuckets);
      ghost var n := 0;
      DropNone(before);
      while |order| > target
        invariant DroppedTo(before, State(order, store), n)
        invariant |order| == |before.order| - n && (n == 0 || |order| >= target)
        decreases |order|
      {
        DropOneMore(before, State(order, store), n);
        var next := order[0];
        order, store := order[1..], store - {next};
        n := n + 1;
      }
      DroppedToTarget(before, State(order, store), n, maxBuckets);
    }

    method Check(key: string, limit: int, window: nat, t0: int, t1: int) returns (result: Answer)
      requires Valid()
      modifies this
      ensures Valid()
      ensures result == AnswerOf(old(Value()), CheckOp(key, limit, window, t0, t1))
      ensures Value() == Apply(old(Value()), maxBuckets, CheckOp(key, limit, window, t0, t1))
    {
      var valid := GetValid(key, window, t0);
      var count := |valid|;
      var allowed := count < limit;
      var remaining := Max(0, limit - count);
      var resetAt := if |valid| > 0 then valid[0] + window else t1 + window;
      result := Answer(allowed, remaining, limit, resetAt, None);
      if !allowed {
        var retryMs := resetAt - t1;
        result := result.(retryAfter := Some(Max(1, CeilSeconds(retryMs))));
      }
    }

    method Consume(key: string, limit: int, window: nat, t0: int, t1: int) returns (result: Answer)
      requires Valid()
      modifies this
      ensures Valid()
      ensures result == AnswerOf(old(Value()), ConsumeOp(key, limit, window, t0, t1))
      ensures Value() == Apply(old(Value()), maxBuckets, ConsumeOp(key, limit, window, t0, t1))
    {
      var valid := GetValid(key, window, t0);
      var count := |valid|;
      if count >= limit {
        var resetAt := if |valid| > 0 then valid[0] + window else t1 + window;
        var retryMs := resetAt - t1;
        return Answer(false, 0, limit, resetAt, Some(Max(1, CeilSeconds(retryMs))));
      }
      valid := valid + [t1];
      var sk := StorageKey(key, window);
      if sk !in store {
        EvictIfFull();
        if sk in store {
          assert false;
        }
      }
      SetConsistent(Value(), sk, valid);
      order, store := if sk in store then order else order + [sk], store[sk := valid];
      result := Answer(true, limit - |valid|, limit, t1 + window, None);
    }

    method GetUsage(key: string, window: nat, t0: int, t1: int) returns (count: nat, oldest: int)
      requires Valid()
      modifies this
      ensures Valid()
      ensures count == |Filter(Bucket(old(Value()), StorageKey(key, window)), t0 - window)|
      ensures oldest == if count > 0 then Filter(Bucket(old(Value()), StorageKey(key, window)), t0 - window)[0] else t1
      ensures Value() == Apply(old(Value()), maxBuckets, UsageOp(key, window, t0, t1))
    {
      var valid := GetValid(key, window, t0);
      count, oldest := |valid|, if |valid| > 0 then valid[0] else t1;
    }

    method Reset(key: string)
      requires Valid()
      modifies this
      ensures Valid()
      ensures Value() == Apply(old(Value()), maxBuckets, ResetOp(key))
    {
      hide WithoutPrefix, Consistent, ResetUpTo, StartsWith, Distinct;
      ghost var before := Value();
      var p := key + [':'];
      var i := 0;
      ResetStart(before, p);
      while i < |order|
        invariant i <= |order| && ResetUpTo(before, Value(), i, p)
        decreases |order| - i
      {
        var next := order[i];
        if StartsWith(next, p) {
          ResetRemoves(before, Value(), i, p);
          order, store := order[..i] + order[i + 1..], store - {next};
        } else {
          ResetSkips(before, Value(), i, p);
          i := i + 1;
        }
      }
      ResetDone(before, Value(), p);
    }

    method ResetAll()
      modifies this
      ensures Valid()
      ensures Value() == Apply(old(Value()), maxBuckets, ResetAllOp)
    {
      order, store := [], map[];
    }
  }

  ghost predicate DroppedTo(before: State, st: State, n: nat) {
    n <= |before.order| && st == DropOldest(before, n) && Consistent(st)
  }

  lemma NothingToEvict(st: State, maxBuckets: nat)
    ensures |st.order| < maxBuckets ==> Evicted(st, maxBuckets) == st
  {
    hide EvictionTarget;
  }

  lemma DropNone(st: State)
    ensures DropOldest(st, 0) == st
    ensures Consistent(st) ==> DroppedTo(st, st, 0)
  {
  }

  lemma DropOneMore(before: State, st: State, n: nat)
    requires Consistent(before) && DroppedTo(before, st, n) && n < |before.order|
    ensures |st.order| > 0 && DroppedTo(before, State(st.order[1..], st.buckets - {st.order[0]}), n + 1)
  {
    DropOldestConsistent(before, n + 1);
    hide Consistent;
    CutOneMore(before.order, n);
    DropNext(before.buckets, before.order[..n], before.order[n]);
  }

  lemma CutOneMore(order: seq<BucketKey>, n: nat)
    requires n < |order|
    ensures order[n..] != [] && order[n..][0] == order[n] && order[n..][1..] == order[n + 1..]
    ensures order[..n + 1] == order[..n] + [order[n]]
  {
  }

  lemma DropNext(buckets: map<BucketKey, seq<int>>, gone: seq<BucketKey>, next: BucketKey)
    ensures (map sk | sk in buckets && sk !in gone :: buckets[sk]) - {next}
            == map sk | sk in buckets && sk !in gone + [next] :: buckets[sk]
  {
  }

  lemma DroppedToTarget(before: State, st: State, n: nat, maxBuckets: nat)
    requires DroppedTo(before, st, n) && |before.order| >= maxBuckets
    requires |st.order| == |before.order| - n <= EvictionTarget(maxBuckets)
    requires n == 0 || |st.order| >= EvictionTarget(maxBuckets)
    ensures Consistent(st) && st == Evicted(before, maxBuckets)
  {
    hide Consistent;
    DropNone(before);
  }

  /** The reset loop has dealt with the first `i` of the remaining keys. */
  ghost predicate ResetUpTo(before: State, st: State, i: nat, p: string) {
    && i <= |st.order|
    && st.order[..i] + WithoutPrefix(st.order[i..], p) == WithoutPrefix(before.order, p)
    && (forall sk :: sk in st.buckets ==> sk in before.buckets && st.buckets[sk] == before.buckets[sk])
    && (forall sk :: sk in before.buckets && !StartsWith(sk, p) ==> sk in st.buckets)
    && Consistent(st)
  }

  lemma ResetStart(st: State, p: string)
    requires Consistent(st)
    ensures ResetUpTo(st, st, 0, p)
  {
    assert [] + WithoutPrefix(st.order, p) == WithoutPrefix(st.order, p);
    assert st.order[..0] == [] && st.order[0..] == st.order;
    hide WithoutPrefix, Distinct;
  }

  lemma ResetRemoves(before: State, st: State, i: nat, p: string)
    requires ResetUpTo(before, st, i, p) && i < |st.order| && StartsWith(st.order[i], p)
    ensures ResetUpTo(before, State(st.order[..i] + st.order[i + 1..], st.buckets - {st.order[i]}), i, p)
  {
    PrefixStep(st.order, i, p);
    RemovedAtConsistent(st, i);
    hide WithoutPrefix, Consistent, StartsWith;
  }

  lemma RemovedAtConsistent(st: State, i: nat)
    requires Consistent(st) && i < |st.order|
    ensures Consistent(State(st.order[..i] + st.order[i + 1..], st.buckets - {st.order[i]}))
  {
    DistinctRemoveAt(st.order, i);
    hide Distinct;
  }

  lemma ResetSkips(before: State, st: State, i: nat, p: string)
    requires ResetUpTo(before, st, i, p) && i < |st.order| && !StartsWith(st.order[i], p)
    ensures ResetUpTo(before, st, i + 1, p)
  {
    PrefixStep(st.order, i, p);
    hide WithoutPrefix, Distinct;
  }

  lemma PrefixStep(order: seq<BucketKey>, i: nat, p: string)
    requires i < |order|
    ensures var rest := order[..i] + order[i + 1..];
            if StartsWith(order[i], p) then
              rest[..i] + WithoutPrefix(rest[i..], p) == order[..i] + WithoutPrefix(order[i..], p)
            else order[..i + 1] + WithoutPrefix(order[i + 1..], p) == order[..i] + WithoutPrefix(order[i..], p)
  {
    var rest := order[..i] + order[i + 1..];
    assert order[i..][1..] == order[i + 1..];
    assert rest[..i] == order[..i] && rest[i..] == order[i + 1..];
    assert order[..i + 1] == order[..i] + [order[i]];
  }

  lemma ResetDone(before: State, st: State, p: string)
    requires Consistent(before) && ResetUpTo(before, st, |st.order|, p)
    ensures st == State(WithoutPrefix(before.order, p),
                        map sk | sk in before.buckets && !StartsWith(sk, p) :: before.buckets[sk])
    ensures Consistent(st)
  {
    assert st.order[..|st.order|] + [] == st.order && st.order[|st.order|..] == [];
    WithoutPrefixMembers(before.order, p);
  }
}
