/**
 One bucket of the sliding-window limiter (src/rate-limit/limiter.ts): a list of timestamps that
 forgets what has left the window, compared with a log that never forgets.

 An operation reads the clock when it prunes the bucket (`t0`) and again later (`t1`); the model
 keeps the two readings apart. Times are milliseconds.
 */
module SlidingBucket {
  import opened Numbers
  import opened Sequences
  import opened Wrappers

  function Filter(stamps: seq<int>, cutoff: int): seq<int> {
    if stamps == [] then []
    else
      var n := |stamps| - 1;
      Filter(stamps[..n], cutoff) + if stamps[n] >= cutoff then [stamps[n]] else []
  }

  // ---------------------------------------------------------------------------------------------
  // Answers

  datatype Answer = Answer(allowed: bool, remaining: int, limit: int, resetAt: int, retryAfter: Option<int>)

  /** Milliseconds to seconds, rounded up. */
  function CeilSeconds(ms: int): int {
    -(-ms / 1000)
  }

  function ResetAt(valid: seq<int>, window: nat, t1: int): int {
    if valid != [] then valid[0] + window else t1 + window
  }

  function RetryAfter(valid: seq<int>, window: nat, t1: int): int {
    Max(1, CeilSeconds(ResetAt(valid, window, t1) - t1))
  }

  function CheckAnswer(valid: seq<int>, limit: int, window: nat, t1: int): Answer {
    Answer(|valid| < limit, Max(0, limit - |valid|), limit, ResetAt(valid, window, t1),
           if |valid| < limit then None else Some(RetryAfter(valid, window, t1)))
  }

  function ConsumeAnswer(valid: seq<int>, limit: int, window: nat, t1: int): Answer {
    if |valid| < limit then Answer(true, limit - (|valid| + 1), limit, t1 + window, None)
    else Answer(false, 0, limit, ResetAt(valid, window, t1), Some(RetryAfter(valid, window, t1)))
  }

  /** `retry_after` seconds reach `reset_at`, and overshoot it (or the present) by at most a second. */
  lemma RetryAfterReachesReset(valid: seq<int>, window: nat, t1: int)
    ensures ResetAt(valid, window, t1) <= t1 + 1000 * RetryAfter(valid, window, t1)
    ensures t1 + 1000 * RetryAfter(valid, window, t1) <= Max(ResetAt(valid, window, t1), t1) + 1000
  {
    var ms := ResetAt(valid, window, t1) - t1;
    assert -ms / 1000 * 1000 <= -ms < -ms / 1000 * 1000 + 1000;
  }

  // ---------------------------------------------------------------------------------------------
  // The life of a bucket

  /** An operation on the bucket: a `consume`, or one of the operations that only look. */
  datatype Touch = Touch(consume: bool, limit: int, t0: int, t1: int)

  predicate Admits(bucket: seq<int>, touch: Touch, window: nat) {
    touch.consume && |Filter(bucket, touch.t0 - window)| < touch.limit
  }

  function Stamp(bucket: seq<int>, touch: Touch, window: nat): seq<int> {
    if Admits(bucket, touch, window) then [touch.t1] else []
  }

  function BucketAfter(bucket: seq<int>, touch: Touch, window: nat): seq<int> {
    Filter(bucket, touch.t0 - window) + Stamp(bucket, touch, window)
  }

  /** The operations on the bucket so far, oldest first. */
  datatype History = Untouched | Touched(past: History, last: Touch)

  function BucketRun(bucket: seq<int>, h: History, window: nat): seq<int> {
    match h
    case Untouched => bucket
    case Touched(past, last) => BucketAfter(BucketRun(bucket, past, window), last, window)
  }

  /** The stamps admitted on the way, none forgotten. */
  function Log(bucket: seq<int>, h: History, window: nat): seq<int> {
    match h
    case Untouched => []
    case Touched(past, last) => Log(bucket, past, window) + Stamp(BucketRun(bucket, past, window), last, window)
  }

  function Clock(h: History, from: int): int {
    match h
    case Untouched => from
    case Touched(_, last) => last.t1
  }

  /** The clock never runs backwards. */
  predicate Monotone(h: History, from: int) {
    match h
    case Untouched => true
    case Touched(past, last) => Monotone(past, from) && Clock(past, from) <= last.t0 <= last.t1
  }

  predicate FixedLimit(h: History, limit: int) {
    match h
    case Untouched => true
    case Touched(past, last) => FixedLimit(past, limit) && (last.consume ==> last.limit == limit)
  }

  /** No `consume` of the history prunes later than `time`. */
  predicate ConsumesBy(h: History, time: int) {
    match h
    case Untouched => true
    case Touched(past, last) => ConsumesBy(past, time) && (last.consume ==> last.t0 <= time)
  }

  /** How many stamps lie in the closed interval from `lo` to `hi`. */
  function CountIn(stamps: seq<int>, lo: int, hi: int): nat {
    if stamps == [] then 0
    else
      var n := |stamps| - 1;
      CountIn(stamps[..n], lo, hi) + if lo <= stamps[n] <= hi then 1 else 0
  }

  // ---------------------------------------------------------------------------------------------
  // Filtering

  lemma FilterSnoc(stamps: seq<int>, t: int, cutoff: int)
    ensures Filter(stamps + [t], cutoff) == Filter(stamps, cutoff) + if t >= cutoff then [t] else []
  {
    assert (stamps + [t])[..|stamps|] == stamps;
  }

  lemma {:induction false} FilterAppend(a: seq<int>, b: seq<int>, cutoff: int)
    ensures Filter(a + b, cutoff) == Filter(a, cutoff) + Filter(b, cutoff)
  {
    if b == [] {
      assert a + b == a;
      AppendNothing(Filter(a, cutoff));
    } else {
      hide Filter;
      var n := |b| - 1;
      var last := if b[n] >= cutoff then [b[n]] else [];
      FilterAppend(a, b[..n], cutoff);
      FilterSnoc(a + b[..n], b[n], cutoff);
      FilterSnoc(b[..n], b[n], cutoff);
      AppendAgain(Filter(a, cutoff), Filter(b[..n], cutoff), last);
      AppendAgain(a, b[..n], [b[n]]);
      assert b == b[..n] + [b[n]];
    }
  }

  lemma {:induction false} FilterTwice(stamps: seq<int>, c: int, d: int)
    requires c <= d
    ensures Filter(Filter(stamps, c), d) == Filter(stamps, d)
  {
    if stamps != [] {
      var n := |stamps| - 1;
      FilterTwice(stamps[..n], c, d);
      if stamps[n] >= c {
        FilterSnoc(Filter(stamps[..n], c), stamps[n], d);
      } else {
        assert Filter(stamps, c) == Filter(stamps[..n], c);
        assert Filter(stamps, d) == Filter(stamps[..n], d);
      }
    }
  }

  lemma {:induction false} FilterAll(stamps: seq<int>, cutoff: int)
    requires forall i :: 0 <= i < |stamps| ==> stamps[i] >= cutoff
    ensures Filter(stamps, cutoff) == stamps
  {
    if stamps != [] {
      var n := |stamps| - 1;
      FilterAll(stamps[..n], cutoff);
      assert stamps == stamps[..n] + [stamps[n]];
    }
  }

  lemma {:induction false} FilterShorter(stamps: seq<int>, cutoff: int)
    ensures |Filter(stamps, cutoff)| <= |stamps|
    ensures |stamps| > 0 && stamps[0] < cutoff ==> |Filter(stamps, cutoff)| < |stamps|
    ensures |Filter(stamps, cutoff)| == |stamps| ==> Filter(stamps, cutoff) == stamps
  {
    if stamps != [] {
      FilterShorter(stamps[..|stamps| - 1], cutoff);
    }
  }

  lemma {:induction false} CountAtMostFilter(stamps: seq<int>, lo: int, hi: int, cutoff: int)
    requires cutoff <= lo
    ensures CountIn(stamps, lo, hi) <= |Filter(stamps, cutoff)|
  {
    if stamps != [] {
      CountAtMostFilter(stamps[..|stamps| - 1], lo, hi, cutoff);
    }
  }

  // ---------------------------------------------------------------------------------------------
  // Forgetting is not observable

  lemma AppendAgrees(a: seq<int>, b: seq<int>, stamps: seq<int>, cutoff: int)
    requires Filter(a, cutoff) == Filter(b, cutoff)
    ensures Filter(a + stamps, cutoff) == Filter(b + stamps, cutoff)
  {
    hide Filter;
    FilterAppend(a, stamps, cutoff);
    FilterAppend(b, stamps, cutoff);
  }

  /** A log and a bucket that agree for every later cutoff still agree after another operation. */
  lemma AgreeAfter(bucket: seq<int>, log: seq<int>, touch: Touch, window: nat, cutoff: int)
    requires touch.t0 - window <= cutoff && Filter(bucket, cutoff) == Filter(log, cutoff)
    ensures Filter(BucketAfter(bucket, touch, window), cutoff) == Filter(log + Stamp(bucket, touch, window), cutoff)
  {
    hide Filter;
    FilterTwice(bucket, touch.t0 - window, cutoff);
    AppendAgrees(Filter(bucket, touch.t0 - window), log, Stamp(bucket, touch, window), cutoff);
  }

  /**
   For every cutoff the clock can still ask for, the pruned bucket holds what a log of the stamps it
   started with and all admitted since would give.
   */
  lemma {:induction false} PrunedAsLog(bucket: seq<int>, h: History, window: nat, from: int, cutoff: int)
    requires Monotone(h, from) && cutoff >= Clock(h, from) - window
    ensures Filter(BucketRun(bucket, h, window), cutoff) == Filter(bucket + Log(bucket, h, window), cutoff)
  {
    hide Filter;
    match h
    case Untouched => assert bucket + [] == bucket;
    case Touched(past, last) =>
      PrunedAsLog(bucket, past, window, from, cutoff);
      AgreeAfter(BucketRun(bucket, past, window), bucket + Log(bucket, past, window), last, window, cutoff);
      AppendAgain(bucket, Log(bucket, past, window), Stamp(BucketRun(bucket, past, window), last, window));
  }

  /** The stamps among them of the operations that asked for no more than `limit`. */
  function LogUnder(bucket: seq<int>, h: History, window: nat, limit: int): seq<int> {
    match h
    case Untouched => []
    case Touched(past, last) =>
      LogUnder(bucket, past, window, limit)
      + if last.limit <= limit then Stamp(BucketRun(bucket, past, window), last, window) else []
  }

  lemma CountSnoc(stamps: seq<int>, more: seq<int>, lo: int, hi: int)
    requires |more| <= 1
    ensures CountIn(stamps + more, lo, hi)
            == CountIn(stamps, lo, hi) + if |more| == 1 && lo <= more[0] <= hi then 1 else 0
  {
    if |more| == 1 {
      assert (stamps + more)[..|stamps|] == stamps;
    } else {
      assert stamps + more == stamps;
    }
  }

  lemma {:induction false} UnderAtMostLog(bucket: seq<int>, h: History, window: nat, limit: int, lo: int, hi: int)
    ensures CountIn(LogUnder(bucket, h, window, limit), lo, hi) <= CountIn(Log(bucket, h, window), lo, hi)
  {
    hide Filter, CountIn;
    match h
    case Untouched =>
    case Touched(past, last) =>
      UnderAtMostLog(bucket, past, window, limit, lo, hi);
      var stamp := Stamp(BucketRun(bucket, past, window), last, window);
      CountSnoc(Log(bucket, past, window), stamp, lo, hi);
      CountSnoc(LogUnder(bucket, past, window, limit), if last.limit <= limit then stamp else [], lo, hi);
  }

  /** With one limit for all, these are all stamps. */
  lemma {:induction false} UnderFixedLimit(bucket: seq<int>, h: History, window: nat, limit: int)
    requires FixedLimit(h, limit)
    ensures LogUnder(bucket, h, window, limit) == Log(bucket, h, window)
  {
    hide Filter;
    match h
    case Untouched =>
    case Touched(past, last) => UnderFixedLimit(bucket, past, window, limit);
  }

  lemma OneMoreUnder(bucket: seq<int>, log: seq<int>, under: seq<int>, touch: Touch, window: nat, limit: int, lo: int)
    requires touch.t0 <= touch.t1 && Filter(bucket, touch.t0 - window) == Filter([] + log, touch.t0 - window)
    requires CountIn(under, lo, lo + window) <= Max(limit, 0)
    requires CountIn(under, lo, lo + window) <= CountIn(log, lo, lo + window) && touch.limit <= limit
    ensures CountIn(under + Stamp(bucket, touch, window), lo, lo + window) <= Max(limit, 0)
  {
    hide Filter, CountIn;
    assert [] + log == log;
    CountSnoc(under, Stamp(bucket, touch, window), lo, lo + window);
    if Admits(bucket, touch, window) && lo <= touch.t1 <= lo + window {
      CountAtMostFilter(log, lo, lo + window, touch.t0 - window);
    }
  }

  /**
   Every closed interval of the window's length holds at most `limit` stamps that were admitted under this limit or
   a lower one, whatever else is admitted to the bucket.
   */
  lemma {:induction false} WindowBoundUnder(h: History, window: nat, limit: int, from: int, lo: int)
    requires Monotone(h, from)
    ensures CountIn(LogUnder([], h, window, limit), lo, lo + window) <= Max(limit, 0)
  {
    hide Filter, Stamp, CountIn;
    match h
    case Untouched => NothingCounted(lo, lo + window);
    case Touched(past, last) =>
      WindowBoundUnder(past, window, limit, from, lo);
      if last.limit <= limit {
        PrunedAsLog([], past, window, from, last.t0 - window);
        UnderAtMostLog([], past, window, limit, lo, lo + window);
        OneMoreUnder(BucketRun([], past, window), Log([], past, window), LogUnder([], past, window, limit), last,
                     window, limit, lo);
      } else {
        AppendNothing(LogUnder([], past, window, limit));
      }
  }

  lemma NothingCounted(lo: int, hi: int)
    ensures CountIn([], lo, hi) == 0
  {
  }

  /** Every closed interval of the window's length holds at most `limit` admitted stamps. */
  lemma WindowBound(h: History, window: nat, limit: int, from: int, lo: int)
    requires Monotone(h, from) && FixedLimit(h, limit)
    ensures CountIn(Log([], h, window), lo, lo + window) <= Max(limit, 0)
  {
    WindowBoundUnder(h, window, limit, from, lo);
    UnderFixedLimit([], h, window, limit);
  }

  // ---------------------------------------------------------------------------------------------
  // What the numbers of an answer mean

  /** `n` consumes, all at the same time. */
  function Rush(touch: Touch, n: nat): History {
    if n == 0 then Untouched else Touched(Rush(touch, n - 1), touch)
  }

  /** Of such a rush as many are admitted as there are places left. */
  lemma {:induction false} RushTakesPlaces(bucket: seq<int>, touch: Touch, window: nat, n: nat)
    requires touch.consume && touch.t0 - window <= touch.t1
    ensures var places := Max(0, touch.limit - |Filter(bucket, touch.t0 - window)|);
            && |Log(bucket, Rush(touch, n), window)| == Min(n, places)
            && |Filter(BucketRun(bucket, Rush(touch, n), window), touch.t0 - window)|
               == |Filter(bucket, touch.t0 - window)| + Min(n, places)
  {
    hide Filter;
    if n > 0 {
      RushTakesPlaces(bucket, touch, window, n - 1);
      var before := BucketRun(bucket, Rush(touch, n - 1), window);
      FilterTwice(before, touch.t0 - window, touch.t0 - window);
      FilterSnoc(Filter(before, touch.t0 - window), touch.t1, touch.t0 - window);
      AppendNothing(Filter(before, touch.t0 - window));
    }
  }

  /** The answer to an operation on this bucket. */
  function AnswerIn(bucket: seq<int>, touch: Touch, window: nat): Answer {
    var valid := Filter(bucket, touch.t0 - window);
    if touch.consume then ConsumeAnswer(valid, touch.limit, window, touch.t1)
    else CheckAnswer(valid, touch.limit, window, touch.t1)
  }

  /** Exactly the denials name a pause: the least number of seconds, at least one, that reaches `reset_at`. */
  lemma RetryAfterTells(bucket: seq<int>, touch: Touch, window: nat)
    ensures var answer := AnswerIn(bucket, touch, window);
            && (answer.retryAfter.Some? <==> !answer.allowed)
            && (answer.retryAfter.Some? ==>
                  var seconds := answer.retryAfter.value;
                  && seconds >= 1 && answer.resetAt <= touch.t1 + 1000 * seconds
                  && (seconds > 1 ==> touch.t1 + 1000 * (seconds - 1) < answer.resetAt))
  {
    var valid := Filter(bucket, touch.t0 - window);
    var ms := ResetAt(valid, window, touch.t1) - touch.t1;
    assert -ms / 1000 * 1000 <= -ms < -ms / 1000 * 1000 + 1000;
    hide Filter;
  }

  /**
   `remaining` is the number of further consumes that would be admitted at that time. A check is allowed if there
   is one, a consume if there was one before it.
   */
  lemma RemainingIsWhatFollows(bucket: seq<int>, touch: Touch, window: nat, n: nat)
    requires touch.t0 <= touch.t1
    ensures var answer, further := AnswerIn(bucket, touch, window), Rush(touch.(consume := true), n);
            && |Log(BucketAfter(bucket, touch, window), further, window)| == Min(n, answer.remaining)
            && (answer.allowed <==> |Log(bucket, Rush(touch.(consume := true), 1), window)| == 1)
            && answer.limit == touch.limit
  {
    hide Filter;
    RushTakesPlaces(bucket, touch.(consume := true), window, 1);
    RushTakesPlaces(BucketAfter(bucket, touch, window), touch.(consume := true), window, n);
    FilterTwice(bucket, touch.t0 - window, touch.t0 - window);
    FilterSnoc(Filter(bucket, touch.t0 - window), touch.t1, touch.t0 - window);
    AppendNothing(Filter(bucket, touch.t0 - window));
  }

  // ---------------------------------------------------------------------------------------------
  // Denials

  predicate Sorted(stamps: seq<int>) {
    forall i, j :: 0 <= i < j < |stamps| ==> stamps[i] <= stamps[j]
  }

  predicate AtMost(stamps: seq<int>, now: int) {
    forall i :: 0 <= i < |stamps| ==> stamps[i] <= now
  }

  lemma {:induction false} FilterSorted(stamps: seq<int>, cutoff: int, now: int)
    requires Sorted(stamps) && AtMost(stamps, now)
    ensures Sorted(Filter(stamps, cutoff)) && AtMost(Filter(stamps, cutoff), now)
  {
    if stamps != [] {
      var n := |stamps| - 1;
      FilterSorted(stamps[..n], cutoff, stamps[n]);
    }
  }

  lemma ShapeAfter(bucket: seq<int>, touch: Touch, window: nat, limit: int, now: int)
    requires Sorted(bucket) && AtMost(bucket, now) && |bucket| <= Max(limit, 0)
    requires now <= touch.t0 <= touch.t1 && (touch.consume ==> touch.limit == limit)
    ensures Sorted(BucketAfter(bucket, touch, window)) && AtMost(BucketAfter(bucket, touch, window), touch.t1)
    ensures |BucketAfter(bucket, touch, window)| <= Max(limit, 0)
  {
    hide Filter, Sorted, AtMost;
    var valid := Filter(bucket, touch.t0 - window);
    FilterSorted(bucket, touch.t0 - window, now);
    FilterShorter(bucket, touch.t0 - window);
    AppendNothing(valid);
    LatestLast(valid, touch.t1, now);
  }

  lemma LatestLast(stamps: seq<int>, t: int, now: int)
    requires Sorted(stamps) && AtMost(stamps, now) && now <= t
    ensures Sorted(stamps + [t]) && AtMost(stamps + [t], t) && AtMost(stamps, t)
  {
  }

  /** A bucket with a fixed limit stays sorted, behind the clock and within the limit. */
  lemma {:induction false} BucketShape(h: History, window: nat, limit: int, from: int)
    requires Monotone(h, from) && FixedLimit(h, limit)
    ensures Sorted(BucketRun([], h, window)) && AtMost(BucketRun([], h, window), Clock(h, from))
    ensures |BucketRun([], h, window)| <= Max(limit, 0)
  {
    hide Filter;
    match h
    case Untouched =>
    case Touched(past, last) =>
      BucketShape(past, window, limit, from);
      ShapeAfter(BucketRun([], past, window), last, window, limit, Clock(past, from));
  }

  /** The stamps all count until the oldest of them expires. */
  lemma AllUntilOldestExpires(stamps: seq<int>, cutoff: int)
    requires Sorted(stamps) && stamps != []
    ensures Filter(stamps, cutoff) == stamps <==> cutoff <= stamps[0]
  {
    if cutoff <= stamps[0] {
      FilterAll(stamps, cutoff);
    } else {
      FilterShorter(stamps, cutoff);
    }
  }

  /** The newest stamp counts until it expires itself, and then nothing is left. */
  lemma NewestCounts(stamps: seq<int>, t: int, cutoff: int)
    requires AtMost(stamps, t)
    ensures Filter(stamps + [t], cutoff) != [] <==> cutoff <= t
  {
    hide Filter;
    FilterSnoc(stamps, t, cutoff);
    if cutoff > t { NoneLeft(stamps, t, cutoff); }
  }

  lemma {:induction false} NoneLeft(stamps: seq<int>, t: int, cutoff: int)
    requires AtMost(stamps, t) && t < cutoff
    ensures Filter(stamps, cutoff) == []
  {
    if stamps != [] { NoneLeft(stamps[..|stamps| - 1], t, cutoff); }
  }

  /**
   What `reset_at` says. After an admitted consume it is the last time at which anything in the bucket counts, so
   that afterwards the full limit is available again; after any other answer with stamps in the bucket it is the
   last time at which all of them count; and without stamps it is one window from now.
   */
  lemma ResetAtTells(bucket: seq<int>, touch: Touch, window: nat, now: int, later: int)
    requires Sorted(bucket) && AtMost(bucket, now) && now <= touch.t0 <= touch.t1
    ensures var answer, after := AnswerIn(bucket, touch, window), BucketAfter(bucket, touch, window);
            && (Admits(bucket, touch, window) ==> (Filter(after, later - window) != [] <==> later <= answer.resetAt))
            && (!Admits(bucket, touch, window) && after != [] ==>
                  (Filter(after, later - window) == after <==> later <= answer.resetAt))
            && (after == [] ==> answer.resetAt == touch.t1 + window)
  {
    hide Filter;
    var valid := Filter(bucket, touch.t0 - window);
    FilterSorted(bucket, touch.t0 - window, now);
    AppendNothing(valid);
    if Admits(bucket, touch, window) {
      NewestCounts(valid, touch.t1, later - window);
    } else if valid != [] {
      AllUntilOldestExpires(valid, later - window);
    }
  }

  predicate Full(bucket: seq<int>, limit: int) {
    Sorted(bucket) && |bucket| == limit >= 1
  }

  /** The limit is reached for as long as the oldest stamp of a full bucket is valid, and no longer. */
  lemma FullUntilOldestExpires(full: seq<int>, bucket: seq<int>, touch: Touch, window: nat)
    requires Full(full, touch.limit) && touch.consume
    requires Filter(bucket, touch.t0 - window) == Filter(full + [], touch.t0 - window)
    ensures Admits(bucket, touch, window) <==> touch.t0 > full[0] + window
  {
    hide Filter;
    AppendNothing(full);
    if touch.t0 > full[0] + window {
      FilterShorter(full, touch.t0 - window);
    } else {
      FilterAll(full, touch.t0 - window);
    }
  }

  /** While the oldest stamp of a full bucket is valid, nothing is admitted. */
  lemma {:induction false} FullAdmitsNothing(bucket: seq<int>, h: History, window: nat, limit: int, from: int)
    requires Full(bucket, limit) && Monotone(h, from) && FixedLimit(h, limit)
    requires ConsumesBy(h, bucket[0] + window)
    ensures Log(bucket, h, window) == []
  {
    hide Filter;
    match h
    case Untouched =>
    case Touched(past, last) =>
      FullAdmitsNothing(bucket, past, window, limit, from);
      if last.consume {
        PrunedAsLog(bucket, past, window, from, last.t0 - window);
        FullUntilOldestExpires(bucket, BucketRun(bucket, past, window), last, window);
      }
  }

  /** The `reset_at` of a `consume` that is denied in this bucket. */
  function DeniedUntil(bucket: seq<int>, denied: Touch, window: nat): int {
    ConsumeAnswer(Filter(bucket, denied.t0 - window), denied.limit, window, denied.t1).resetAt
  }

  /** A denial under a positive limit leaves a full bucket, and `reset_at` is when its oldest stamp stops counting. */
  lemma DenialLeavesFull(h: History, denied: Touch, window: nat, from: int)
    requires Monotone(Touched(h, denied), from) && FixedLimit(Touched(h, denied), denied.limit) && denied.limit >= 1
    requires denied.consume && !Admits(BucketRun([], h, window), denied, window)
    ensures var after := BucketRun([], Touched(h, denied), window);
            Full(after, denied.limit) && after[0] + window == DeniedUntil(BucketRun([], h, window), denied, window)
  {
    hide Filter;
    BucketShape(Touched(h, denied), window, denied.limit, from);
  }

  lemma NextAfterFull(bucket: seq<int>, more: History, next: Touch, window: nat, from: int)
    requires Full(bucket, next.limit) && next.consume
    requires FixedLimit(more, next.limit) && Monotone(Touched(more, next), from)
    requires ConsumesBy(more, bucket[0] + window)
    ensures Admits(BucketRun(bucket, more, window), next, window) <==> next.t0 > bucket[0] + window
  {
    hide Filter;
    FullAdmitsNothing(bucket, more, window, next.limit, from);
    PrunedAsLog(bucket, more, window, from, next.t0 - window);
    FullUntilOldestExpires(bucket, BucketRun(bucket, more, window), next, window);
  }

  /**
   A consume is denied after the history `h`, and `next` is a later one under the same limit. No consume in
   between comes after the `reset_at` of the denial.
   */
  predicate NextAfterDenial(h: History, denied: Touch, more: History, next: Touch, window: nat, limit: int, from: int)
  {
    && Monotone(Touched(h, denied), from) && FixedLimit(Touched(h, denied), limit)
    && denied.consume && denied.limit == limit && !Admits(BucketRun([], h, window), denied, window)
    && next.consume && next.limit == limit
    && FixedLimit(more, limit) && Monotone(Touched(more, next), denied.t1)
    && ConsumesBy(more, DeniedUntil(BucketRun([], h, window), denied, window))
  }

  /**
   When the next consume is admitted after a denial: if and only if it reads a time strictly later than the
   `reset_at` of the denial, and the limit is positive.
   */
  lemma DenialEndsAtReset(h: History, denied: Touch, more: History, next: Touch, window: nat, limit: int, from: int)
    requires NextAfterDenial(h, denied, more, next, window, limit, from)
    ensures Admits(BucketRun(BucketRun([], Touched(h, denied), window), more, window), next, window)
            <==> limit >= 1 && next.t0 > DeniedUntil(BucketRun([], h, window), denied, window)
  {
    hide Filter;
    if limit >= 1 {
      DenialLeavesFull(h, denied, window, from);
      NextAfterFull(BucketRun([], Touched(h, denied), window), more, next, window, denied.t1);
    }
  }

  /** Every denial under this limit is lifted by its `reset_at`, and not before. */
  ghost predicate KeepsReset(window: nat, limit: int) {
    forall h, denied, more, next, from :: NextAfterDenial(h, denied, more, next, window, limit, from) ==>
      (Admits(BucketRun(BucketRun([], Touched(h, denied), window), more, window), next, window)
       <==> next.t0 > DeniedUntil(BucketRun([], h, window), denied, window))
  }

  /** `reset_at` is exact for the positive limits and for no others. */
  lemma ResetNeedsPositiveLimit(window: nat, limit: int)
    ensures KeepsReset(window, limit) <==> limit >= 1
  {
    if limit >= 1 {
      forall h, denied, more, next, from | NextAfterDenial(h, denied, more, next, window, limit, from)
        ensures Admits(BucketRun(BucketRun([], Touched(h, denied), window), more, window), next, window)
                <==> next.t0 > DeniedUntil(BucketRun([], h, window), denied, window)
      {
        DenialEndsAtReset(h, denied, more, next, window, limit, from);
      }
    } else {
      NeverLifted(window, limit);
    }
  }

  /** With limit zero, say, a consume at time 0 is told to come back after the window, and then denied again. */
  lemma NeverLifted(window: nat, limit: int)
    requires limit <= 0
    ensures var denied, next := Touch(true, limit, 0, 0), Touch(true, limit, window + 1, window + 1);
            && NextAfterDenial(Untouched, denied, Untouched, next, window, limit, 0)
            && DeniedUntil(BucketRun([], Untouched, window), denied, window) == window < next.t0
            && !Admits(BucketRun(BucketRun([], Touched(Untouched, denied), window), Untouched, window), next, window)
  {
  }
}
