/**
 The circuit breaker (src/router/circuit-breaker.ts) under overlapping requests. A request admitted in one
 state may report in another; `forward` (src/proxy/mcp-client.ts:66-87) reports each admitted request once.
 */
module CircuitBreaker {
  import opened Numbers

  datatype CircuitState = Closed | Open | HalfOpen

  datatype Config = Config(failureThreshold: int, resetTimeoutMs: int, halfOpenMaxRequests: int, successThreshold: int)

  /** A threshold that is not positive acts as one, a maximum that is not positive as zero. */
  function FailuresNeeded(c: Config): nat {
    Max(1, c.failureThreshold)
  }

  function SuccessesNeeded(c: Config): nat {
    Max(1, c.successThreshold)
  }

  function ProbeSlots(c: Config): nat {
    Max(0, c.halfOpenMaxRequests)
  }

  datatype Breaker = Breaker(
    state: CircuitState, failureCount: nat, successCount: nat, lastFailureTime: int, halfOpenRequests: nat,
    tripCount: nat)

  const FRESH := Breaker(Closed, 0, 0, 0, 0, 0)

  datatype Verdict = Verdict(admitted: bool, breaker: Breaker)

  function CanExecute(c: Config, b: Breaker, now: int): Verdict {
    match b.state
    case Closed => Verdict(true, b)
    case Open =>
      if now - b.lastFailureTime >= c.resetTimeoutMs then
        var half := b.(state := HalfOpen, halfOpenRequests := 0, successCount := 0);
        if 0 < c.halfOpenMaxRequests then Verdict(true, half.(halfOpenRequests := 1)) else Verdict(false, half)
      else Verdict(false, b)
    case HalfOpen =>
      if b.halfOpenRequests < c.halfOpenMaxRequests then Verdict(true, b.(halfOpenRequests := b.halfOpenRequests + 1))
      else Verdict(false, b)
  }

  function OnSuccess(c: Config, b: Breaker): Breaker {
    match b.state
    case Closed => b.(failureCount := 0)
    case Open => b
    case HalfOpen =>
      if b.successCount + 1 >= c.successThreshold then
        b.(state := Closed, failureCount := 0, successCount := 0, halfOpenRequests := 0)
      else
        b.(successCount := b.successCount + 1,
           halfOpenRequests := if b.halfOpenRequests > 0 then b.halfOpenRequests - 1 else 0)
  }

  function OnFailure(c: Config, b: Breaker, now: int): Breaker {
    match b.state
    case Closed =>
      if b.failureCount + 1 >= c.failureThreshold then
        b.(state := Open, failureCount := b.failureCount + 1, lastFailureTime := now, tripCount := b.tripCount + 1)
      else b.(failureCount := b.failureCount + 1, lastFailureTime := now)
    case Open => b.(lastFailureTime := now)
    case HalfOpen =>
      b.(state := Open, tripCount := b.tripCount + 1, successCount := 0, halfOpenRequests := 0, lastFailureTime := now)
  }

  function AfterReset(b: Breaker): Breaker {
    b.(state := Closed, failureCount := 0, successCount := 0, halfOpenRequests := 0, lastFailureTime := 0)
  }

  // ---------------------------------------------------------------------------------------------
  // Runs with requests in flight

  /**
   `probes` are the requests in flight that the current half-open episode admitted, `others` all the
   remaining ones; `strayed` counts the successes that others have reported in this episode.
   */
  datatype World = World(breaker: Breaker, probes: nat, others: nat, strayed: nat)

  datatype Event =
    | Ask(now: int)
    | Report(fromProbe: bool, ok: bool, now: int)
    | ForceClosed

  predicate Enabled(w: World, e: Event) {
    e.Report? ==> if e.fromProbe then w.probes > 0 else w.others > 0
  }

  /** When an episode ends its unreported probes become stragglers. */
  function EndOfEpisode(w: World): World {
    if w.breaker.state.HalfOpen? then w else World(w.breaker, 0, w.others + w.probes, 0)
  }

  function Admit(c: Config, w: World, now: int): World {
    var v := CanExecute(c, w.breaker, now);
    if !v.admitted then w.(breaker := v.breaker)
    else if v.breaker.state.HalfOpen? then w.(breaker := v.breaker, probes := w.probes + 1)
    else w.(breaker := v.breaker, others := w.others + 1)
  }

  function Reported(c: Config, w: World, fromProbe: bool, ok: bool, now: int): World
    requires Enabled(w, Report(fromProbe, ok, now))
  {
    var b := if ok then OnSuccess(c, w.breaker) else OnFailure(c, w.breaker, now);
    World(b,
          if fromProbe then w.probes - 1 else w.probes,
          if fromProbe then w.others else w.others - 1,
          if ok && !fromProbe then w.strayed + 1 else w.strayed)
  }

  function Next(c: Config, w: World, e: Event): World
    requires Enabled(w, e)
  {
    match e
    case Ask(now) => EndOfEpisode(Admit(c, w, now))
    case Report(fromProbe, ok, now) => EndOfEpisode(Reported(c, w, fromProbe, ok, now))
    case ForceClosed => EndOfEpisode(w.(breaker := AfterReset(w.breaker)))
  }

  datatype Trace = Idle | After(past: Trace, event: Event)

  const START := World(FRESH, 0, 0, 0)

  predicate LegalFrom(c: Config, w: World, trace: Trace)
    decreases trace, 0
  {
    match trace
    case Idle => true
    case After(past, e) => LegalFrom(c, w, past) && Enabled(ReachedFrom(c, w, past), e)
  }

  function ReachedFrom(c: Config, w: World, trace: Trace): World
    requires LegalFrom(c, w, trace)
    decreases trace, 1
  {
    match trace
    case Idle => w
    case After(past, e) => Next(c, ReachedFrom(c, w, past), e)
  }

  predicate Legal(c: Config, trace: Trace) {
    LegalFrom(c, START, trace)
  }

  function Reached(c: Config, trace: Trace): World
    requires Legal(c, trace)
  {
    ReachedFrom(c, START, trace)
  }

  // ---------------------------------------------------------------------------------------------
  // Probe slots

  predicate SlotsSound(c: Config, w: World) {
    && w.breaker.halfOpenRequests <= ProbeSlots(c)
    && w.breaker.halfOpenRequests <= w.probes <= w.breaker.halfOpenRequests + w.strayed
    && (!w.breaker.state.HalfOpen? ==> w.probes == 0 && w.strayed == 0)
    && (w.breaker.state.HalfOpen? ==> w.breaker.successCount < SuccessesNeeded(c))
    && (ProbeSlots(c) == 0 ==> w.probes == 0)
  }

  lemma NextSlots(c: Config, w: World, e: Event)
    requires SlotsSound(c, w) && Enabled(w, e)
    ensures SlotsSound(c, Next(c, w, e))
  {
    if e.Report? && e.ok && w.breaker.state.HalfOpen? {
      assert w.breaker.halfOpenRequests == 0 ==> w.probes <= w.strayed;
    }
  }

  /**
   Slots never leak: the counter stays within the maximum and within the probes still in flight. The probes
   in flight exceed it by no more than the successes that stragglers have reported in this episode.
   */
  lemma {:induction false} SlotsNeverLeak(c: Config, trace: Trace)
    requires Legal(c, trace)
    ensures var w := Reached(c, trace);
            && w.breaker.halfOpenRequests <= ProbeSlots(c)
            && w.breaker.halfOpenRequests <= w.probes <= ProbeSlots(c) + w.strayed
            && (w.strayed == 0 ==> w.probes == w.breaker.halfOpenRequests)
            && (w.breaker.state.HalfOpen? ==> w.breaker.successCount < SuccessesNeeded(c))
    ensures SlotsSound(c, Reached(c, trace))
  {
    match trace
    case Idle =>
    case After(past, e) => {
      SlotsNeverLeak(c, past);
      hide Next;
      NextSlots(c, Reached(c, past), e);
    }
  }

  /** Half-open with none of its probes in flight, the breaker admits the next request, if it admits any at all. */
  lemma IdleHalfOpenAdmits(c: Config, trace: Trace, now: int)
    requires Legal(c, trace)
    requires Reached(c, trace).breaker.state.HalfOpen? && Reached(c, trace).probes == 0
    ensures CanExecute(c, Reached(c, trace).breaker, now).admitted <==> c.halfOpenMaxRequests >= 1
  {
    SlotsNeverLeak(c, trace);
  }

  // ---------------------------------------------------------------------------------------------
  // How many probes are really in flight

  function Asks(base: Trace, n: nat, now: int): Trace {
    if n == 0 then base else After(Asks(base, n - 1, now), Ask(now))
  }

  function Fails(base: Trace, n: nat, now: int): Trace {
    if n == 0 then base else After(Fails(base, n - 1, now), Report(false, false, now))
  }

  lemma {:induction false} ClosedAsks(c: Config, n: nat)
    ensures Legal(c, Asks(Idle, n, 0)) && Reached(c, Asks(Idle, n, 0)) == START.(others := n)
  {
    if n > 0 { ClosedAsks(c, n - 1); }
  }

  lemma {:induction false} ClosedFails(c: Config, base: Trace, n: nat)
    requires Legal(c, base) && Reached(c, base) == START.(others := FailuresNeeded(c) + 1) && n < FailuresNeeded(c)
    ensures Legal(c, Fails(base, n, 0))
    ensures Reached(c, Fails(base, n, 0)) == World(FRESH.(failureCount := n), 0, FailuresNeeded(c) + 1 - n, 0)
  {
    if n > 0 { ClosedFails(c, base, n - 1); }
  }

  lemma {:induction false} HalfOpenAsks(c: Config, base: Trace, n: nat, now: int)
    requires Legal(c, base) && Reached(c, base).breaker.state.HalfOpen?
    requires Reached(c, base).breaker.halfOpenRequests + n <= c.halfOpenMaxRequests
    ensures Legal(c, Asks(base, n, now))
    ensures var w, r := Reached(c, base), Reached(c, Asks(base, n, now));
            && r == w.(breaker := w.breaker.(halfOpenRequests := w.breaker.halfOpenRequests + n),
                       probes := w.probes + n)
  {
    if n > 0 { HalfOpenAsks(c, base, n - 1, now); }
  }

  /** One request in flight outlives the trip of the breaker; its success is then counted as that of a probe. */
  lemma StragglerOverfills(c: Config) returns (trace: Trace)
    requires c.successThreshold > 1 && c.halfOpenMaxRequests >= 1
    ensures Legal(c, trace) && Reached(c, trace).probes > ProbeSlots(c)
  {
    hide Legal, Reached, Asks, Fails;
    var n, later := FailuresNeeded(c), c.resetTimeoutMs;
    var asked := Asks(Idle, n + 1, 0);
    ClosedAsks(c, n + 1);
    var failing := Fails(asked, n - 1, 0);
    ClosedFails(c, asked, n - 1);
    Step(c, failing, Report(false, false, 0));
    var tripped := After(failing, Report(false, false, 0));
    assert Reached(c, tripped) == World(Breaker(Open, n, 0, 0, 0, 1), 0, 1, 0);
    Step(c, tripped, Ask(later));
    var probing := After(tripped, Ask(later));
    assert Reached(c, probing) == World(Breaker(HalfOpen, n, 0, 0, 1, 1), 1, 1, 0);
    var full := Asks(probing, c.halfOpenMaxRequests - 1, later);
    HalfOpenAsks(c, probing, c.halfOpenMaxRequests - 1, later);
    trace := FreedSlotOverfills(c, full, later);
  }

  lemma Step(c: Config, trace: Trace, e: Event)
    requires Legal(c, trace) && Enabled(Reached(c, trace), e)
    ensures Legal(c, After(trace, e)) && Reached(c, After(trace, e)) == Next(c, Reached(c, trace), e)
  {
    hide Next;
  }

  /** With all slots taken, a straggler's success lets one more probe in. */
  lemma FreedSlotOverfills(c: Config, full: Trace, now: int) returns (trace: Trace)
    requires Legal(c, full) && Reached(c, full).breaker.state.HalfOpen?
    requires Reached(c, full).breaker.successCount + 1 < c.successThreshold && Reached(c, full).others > 0
    requires Reached(c, full).probes == Reached(c, full).breaker.halfOpenRequests == c.halfOpenMaxRequests > 0
    ensures Legal(c, trace) && Reached(c, trace).probes > c.halfOpenMaxRequests
  {
    hide Legal, Reached;
    Step(c, full, Report(false, true, now));
    var freed := After(full, Report(false, true, now));
    Step(c, freed, Ask(now));
    trace := After(freed, Ask(now));
  }

  lemma {:induction false} NobodyStrays(c: Config, trace: Trace)
    requires c.successThreshold <= 1 && Legal(c, trace)
    ensures Reached(c, trace).strayed == 0
  {
    match trace
    case Idle =>
    case After(past, e) => {
      NobodyStrays(c, past);
      SlotsNeverLeak(c, past);
    }
  }

  /**
   At most `halfOpenMaxRequests` probes are in flight in every run exactly when one success closes the breaker, or
   when there are no probes at all.
   */
  lemma ProbesWithinMaximum(c: Config)
    ensures (forall trace :: Legal(c, trace) ==> Reached(c, trace).probes <= ProbeSlots(c)) <==>
              c.successThreshold <= 1 || c.halfOpenMaxRequests <= 0
  {
    hide Legal, Reached;
    if c.successThreshold <= 1 || c.halfOpenMaxRequests <= 0 {
      forall trace | Legal(c, trace) ensures Reached(c, trace).probes <= ProbeSlots(c) {
        SlotsNeverLeak(c, trace);
        if c.successThreshold <= 1 { NobodyStrays(c, trace); }
      }
    } else {
      var trace := StragglerOverfills(c);
    }
  }

  // ---------------------------------------------------------------------------------------------
  // Closing

  predicate Hopeful(trace: Trace) {
    match trace
    case Idle => true
    case After(past, e) => Hopeful(past) && (e.Ask? || (e.Report? && e.ok))
  }

  function Successes(trace: Trace): nat {
    match trace
    case Idle => 0
    case After(past, e) => Successes(past) + (if e.Report? && e.ok then 1 else 0)
  }

  /** Without a failure or a reset, a half-open breaker closes at exactly the `successThreshold`-th success. */
  lemma {:induction false} SuccessesClose(c: Config, w: World, trace: Trace)
    requires w.breaker.state.HalfOpen? && w.breaker.successCount < SuccessesNeeded(c)
    requires LegalFrom(c, w, trace) && Hopeful(trace)
    ensures var b := ReachedFrom(c, w, trace).breaker;
            if w.breaker.successCount + Successes(trace) < SuccessesNeeded(c) then
              b.state.HalfOpen? && b.successCount == w.breaker.successCount + Successes(trace)
            else b.state.Closed?
  {
    match trace
    case Idle =>
    case After(past, e) => SuccessesClose(c, w, past);
  }

  /** `n` probes one after the other, each admitted and then successful. */
  function ProbeCycles(n: nat, now: int): Trace {
    if n == 0 then Idle else After(After(ProbeCycles(n - 1, now), Ask(now)), Report(true, true, now))
  }

  lemma {:induction false} CyclesRun(c: Config, w: World, n: nat, now: int)
    requires c.halfOpenMaxRequests >= 1 && SlotsSound(c, w) && w.breaker.state.HalfOpen? && w.probes == 0
    requires w.breaker.successCount + n <= SuccessesNeeded(c)
    ensures var t := ProbeCycles(n, now);
            && LegalFrom(c, w, t)
            && var r := ReachedFrom(c, w, t);
               if w.breaker.successCount + n < SuccessesNeeded(c) then
                 && r.breaker.state.HalfOpen? && r.probes == 0 && r.breaker.halfOpenRequests == 0
                 && r.breaker.successCount == w.breaker.successCount + n
               else r.breaker.state.Closed?
  {
    if n > 0 {
      CyclesRun(c, w, n - 1, now);
      var t := ProbeCycles(n - 1, now);
      var r := ReachedFrom(c, w, t);
      var asked := Next(c, r, Ask(now));
      assert ReachedFrom(c, w, After(t, Ask(now))) == asked;
      assert asked.probes == 1;
    }
  }

  /** Without slots the first probe is refused, so that it cannot report. */
  lemma {:induction false} NoCycleRuns(c: Config, w: World, n: nat, now: int)
    requires c.halfOpenMaxRequests <= 0 && w.breaker.state.HalfOpen? && w.probes == 0 && n > 0
    ensures !LegalFrom(c, w, ProbeCycles(n, now))
  {
    if n > 1 {
      NoCycleRuns(c, w, n - 1, now);
    } else {
      assert ReachedFrom(c, w, After(Idle, Ask(now))) == w;
    }
  }

  /**
   Probing one request at a time closes a half-open breaker after the missing successes, without ever being stuck,
   exactly when the breaker admits probes at all.
   */
  lemma RecoveryByProbing(c: Config, trace: Trace, now: int)
    requires Legal(c, trace)
    requires Reached(c, trace).breaker.state.HalfOpen? && Reached(c, trace).probes == 0
    ensures var w := Reached(c, trace);
            && SuccessesNeeded(c) > w.breaker.successCount
            && var t := ProbeCycles(SuccessesNeeded(c) - w.breaker.successCount, now);
               (LegalFrom(c, w, t) && ReachedFrom(c, w, t).breaker.state.Closed? <==> c.halfOpenMaxRequests >= 1)
  {
    SlotsNeverLeak(c, trace);
    hide Reached, ReachedFrom, LegalFrom;
    var w := Reached(c, trace);
    if c.halfOpenMaxRequests >= 1 {
      CyclesRun(c, w, SuccessesNeeded(c) - w.breaker.successCount, now);
    } else {
      NoCycleRuns(c, w, SuccessesNeeded(c) - w.breaker.successCount, now);
    }
  }

  // ---------------------------------------------------------------------------------------------
  // Opening

  predicate IsFailure(e: Event) {
    e.Report? && !e.ok
  }

  /** Failures reported since the last reported success or reset. */
  function FailuresInARow(trace: Trace): nat {
    match trace
    case Idle => 0
    case After(past, e) =>
      if IsFailure(e) then FailuresInARow(past) + 1
      else if e.Ask? then FailuresInARow(past)
      else 0
  }

  predicate AnyFailure(trace: Trace) {
    trace.After? && (IsFailure(trace.event) || AnyFailure(trace.past))
  }

  /** The time at which the latest failure was reported. */
  function LatestFailure(trace: Trace): int
    requires AnyFailure(trace)
  {
    if IsFailure(trace.event) then trace.event.now else LatestFailure(trace.past)
  }

  /** What the counters say, given the failures in a row and the time of the latest failure, if there was one. */
  predicate CountersTell(c: Config, b: Breaker, inARow: nat, any: bool, latest: int) {
    if b.state.Closed? then b.failureCount == inARow < FailuresNeeded(c)
    else any && b.lastFailureTime == latest
  }

  lemma CountersNext(c: Config, w: World, e: Event, inARow: nat, any: bool, latest: int)
    requires Enabled(w, e) && CountersTell(c, w.breaker, inARow, any, latest)
    ensures CountersTell(c, Next(c, w, e).breaker,
                         if IsFailure(e) then inARow + 1 else if e.Ask? then inARow else 0,
                         any || IsFailure(e), if IsFailure(e) then e.now else latest)
  {
  }

  lemma {:induction false} CountersTellHistory(c: Config, trace: Trace)
    requires Legal(c, trace)
    ensures CountersTell(c, Reached(c, trace).breaker, FailuresInARow(trace), AnyFailure(trace),
                         if AnyFailure(trace) then LatestFailure(trace) else 0)
  {
    match trace
    case Idle =>
    case After(past, e) => {
      hide Next, Enabled, CountersTell;
      CountersTellHistory(c, past);
      CountersNext(c, Reached(c, past), e, FailuresInARow(past), AnyFailure(past),
                   if AnyFailure(past) then LatestFailure(past) else 0);
    }
  }

  lemma LeavesClosed(c: Config, w: World, e: Event)
    requires Enabled(w, e) && w.breaker.state.Closed? && w.breaker.failureCount < FailuresNeeded(c)
    ensures var r := Next(c, w, e).breaker;
            && (!r.state.Closed? <==> IsFailure(e) && w.breaker.failureCount + 1 == FailuresNeeded(c))
            && (!r.state.Closed? ==> r.state.Open?)
  {
  }

  /** The breaker leaves closed at exactly the `failureThreshold`-th failure in a row, and then it is open. */
  lemma LeavesClosedExactly(c: Config, trace: Trace, e: Event)
    requires Legal(c, After(trace, e)) && Reached(c, trace).breaker.state.Closed?
    ensures !Reached(c, After(trace, e)).breaker.state.Closed? <==>
              FailuresInARow(After(trace, e)) >= FailuresNeeded(c)
    ensures !Reached(c, After(trace, e)).breaker.state.Closed? ==>
              && Reached(c, After(trace, e)).breaker.state.Open? && IsFailure(e)
              && FailuresInARow(After(trace, e)) == FailuresNeeded(c)
  {
    CountersTellHistory(c, trace);
    LegalBefore(c, trace, e);
    Step(c, trace, e);
    hide Legal, Reached, Next, Enabled;
    LeavesClosed(c, Reached(c, trace), e);
    InARowNext(trace, e);
  }

  lemma LegalBefore(c: Config, trace: Trace, e: Event)
    requires Legal(c, After(trace, e))
    ensures Legal(c, trace) && Enabled(Reached(c, trace), e)
  {
  }

  lemma InARowNext(trace: Trace, e: Event)
    ensures FailuresInARow(After(trace, e))
            == if IsFailure(e) then FailuresInARow(trace) + 1 else if e.Ask? then FailuresInARow(trace) else 0
  {
  }

  /** Open, it admits a request exactly when the reset timeout has passed since the latest failure, if any at all. */
  lemma OpenAdmitsAfterTimeout(c: Config, trace: Trace, now: int)
    requires Legal(c, trace) && Reached(c, trace).breaker.state.Open?
    ensures AnyFailure(trace)
    ensures CanExecute(c, Reached(c, trace).breaker, now).admitted <==>
              c.halfOpenMaxRequests >= 1 && now >= LatestFailure(trace) + c.resetTimeoutMs
  {
    CountersTellHistory(c, trace);
  }

  /** How often the run has entered the open state. */
  function Openings(c: Config, trace: Trace): nat
    requires Legal(c, trace)
  {
    match trace
    case Idle => 0
    case After(past, e) =>
      Openings(c, past)
      + if Reached(c, trace).breaker.state.Open? && !Reached(c, past).breaker.state.Open? then 1 else 0
  }

  lemma TripsNext(c: Config, w: World, e: Event)
    requires Enabled(w, e)
    ensures var r := Next(c, w, e);
            r.breaker.tripCount
            == w.breaker.tripCount + if r.breaker.state.Open? && !w.breaker.state.Open? then 1 else 0
  {
  }

  lemma {:induction false} TripsAreOpenings(c: Config, trace: Trace)
    requires Legal(c, trace)
    ensures Reached(c, trace).breaker.tripCount == Openings(c, trace)
  {
    match trace
    case Idle =>
    case After(past, e) => {
      hide Next, Enabled;
      TripsAreOpenings(c, past);
      TripsNext(c, Reached(c, past), e);
    }
  }

  // ---------------------------------------------------------------------------------------------
  // The breaker as a function of what was reported and when

  /** The state that the events alone determine: no counters, only the history. */
  function StateOf(c: Config, trace: Trace): CircuitState
    decreases trace, 1
  {
    match trace
    case Idle => Closed
    case After(past, ForceClosed) => Closed
    case After(past, Ask(now)) =>
      if StateOf(c, past).Open? && TimeoutOver(c, past, now) then HalfOpen else StateOf(c, past)
    case After(past, Report(_, true, _)) =>
      if StateOf(c, past).HalfOpen? && EpisodeSuccesses(c, trace) >= SuccessesNeeded(c) then Closed
      else StateOf(c, past)
    case After(past, Report(_, false, _)) =>
      if StateOf(c, past).Closed? && FailuresInARow(trace) < FailuresNeeded(c) then Closed else Open
  }

  /** Successes reported since the breaker was last found in another state than half-open. */
  function EpisodeSuccesses(c: Config, trace: Trace): nat
    decreases trace, 0
  {
    match trace
    case Idle => 0
    case After(past, e) =>
      if !StateOf(c, past).HalfOpen? then 0
      else EpisodeSuccesses(c, past) + if e.Report? && e.ok then 1 else 0
  }

  predicate TimeoutOver(c: Config, trace: Trace, now: int) {
    AnyFailure(trace) && now >= LatestFailure(trace) + c.resetTimeoutMs
  }

  /** The slots taken in a half-open episode: one more per admitted request, one less per success, never below zero. */
  function SlotsTaken(c: Config, trace: Trace): nat {
    match trace
    case Idle => 0
    case After(past, e) =>
      if !StateOf(c, trace).HalfOpen? then 0
      else if !StateOf(c, past).HalfOpen? then if ProbeSlots(c) > 0 then 1 else 0
      else if e.Ask? then if SlotsTaken(c, past) < ProbeSlots(c) then SlotsTaken(c, past) + 1 else SlotsTaken(c, past)
      else if SlotsTaken(c, past) > 0 then SlotsTaken(c, past) - 1 else 0
  }

  /** Whether a request at `now` gets through, by the history alone. */
  predicate AdmitsAt(c: Config, trace: Trace, now: int) {
    match StateOf(c, trace)
    case Closed => true
    case Open => TimeoutOver(c, trace, now) && c.halfOpenMaxRequests >= 1
    case HalfOpen => SlotsTaken(c, trace) < ProbeSlots(c)
  }

  /** The fields of the breaker agree with the history. */
  predicate Tells(c: Config, b: Breaker, state: CircuitState, inARow: nat, any: bool, latest: int, successes: nat,
                  slots: nat)
  {
    && b.state == state && CountersTell(c, b, inARow, any, latest) && b.halfOpenRequests == slots
    && (if state.HalfOpen? then b.successCount == successes < SuccessesNeeded(c) else b.successCount == 0)
  }

  predicate ToldBy(c: Config, trace: Trace, b: Breaker) {
    Tells(c, b, StateOf(c, trace), FailuresInARow(trace), AnyFailure(trace),
          if AnyFailure(trace) then LatestFailure(trace) else 0, EpisodeSuccesses(c, trace), SlotsTaken(c, trace))
  }

  lemma AskTells(c: Config, past: Trace, w: World, now: int)
    requires ToldBy(c, past, w.breaker)
    ensures ToldBy(c, After(past, Ask(now)), Next(c, w, Ask(now)).breaker)
    ensures CanExecute(c, w.breaker, now).admitted <==> AdmitsAt(c, past, now)
  {
  }

  lemma ReportTells(c: Config, past: Trace, w: World, e: Event)
    requires ToldBy(c, past, w.breaker) && Enabled(w, e) && e.Report?
    ensures ToldBy(c, After(past, e), Next(c, w, e).breaker)
  {
  }

  /**
   In every run the state of the breaker, and with it every answer, is what the events so far say: closed until
   enough failures in a row, open until the timeout after the latest of them, half-open until a failure reopens it
   or enough successes close it, and closed by every reset.
   */
  lemma {:induction false} StateTellsHistory(c: Config, trace: Trace)
    requires Legal(c, trace)
    ensures ToldBy(c, trace, Reached(c, trace).breaker)
  {
    match trace
    case Idle =>
    case After(past, e) => {
      LegalBefore(c, past, e);
      StateTellsHistory(c, past);
      Step(c, past, e);
      var w := Reached(c, past);
      hide Legal, Reached, ToldBy, Next, Enabled;
      match e
      case Ask(now) => AskTells(c, past, w, now);
      case Report(_, _, _) => ReportTells(c, past, w, e);
      case ForceClosed => ResetTells(c, past, w);
    }
  }

  lemma ResetTells(c: Config, past: Trace, w: World)
    ensures ToldBy(c, After(past, ForceClosed), Next(c, w, ForceClosed).breaker)
  {
  }

  /** The time of the latest failure since the latest reset, or 0 without one. */
  function FailureTime(trace: Trace): int {
    match trace
    case Idle => 0
    case After(past, e) => if IsFailure(e) then e.now else if e.ForceClosed? then 0 else FailureTime(past)
  }

  lemma {:induction false} FailureTimeTold(c: Config, trace: Trace)
    requires Legal(c, trace)
    ensures Reached(c, trace).breaker.lastFailureTime == FailureTime(trace)
  {
    match trace
    case Idle =>
    case After(past, e) => FailureTimeTold(c, past);
  }

  /** So a request is admitted in exactly these cases, and a closed breaker admits every one and does not change. */
  lemma AdmitsExactly(c: Config, trace: Trace, now: int)
    requires Legal(c, trace)
    ensures Reached(c, trace).breaker.state == StateOf(c, trace)
    ensures CanExecute(c, Reached(c, trace).breaker, now).admitted <==> AdmitsAt(c, trace, now)
    ensures var b := Reached(c, trace).breaker; b.state.Closed? ==> CanExecute(c, b, now) == Verdict(true, b)
    ensures var b := Reached(c, trace).breaker;
            b.state.Open? && !TimeoutOver(c, trace, now) ==> CanExecute(c, b, now) == Verdict(false, b)
  {
    StateTellsHistory(c, trace);
    AskTells(c, trace, Reached(c, trace), now);
    hide Reached, StateOf, SlotsTaken, EpisodeSuccesses, FailuresInARow;
  }

  // ---------------------------------------------------------------------------------------------
  // The class

  class CircuitBreaker {
    var state: CircuitState
    var failureCount: nat
    var successCount: nat
    var lastFailureTime: int
    var halfOpenRequests: nat
    var tripCount: nat
    const config: Config

    constructor (config: Config)
      ensures Value() == FRESH && this.config == config
    {
      this.config := config;
      state, failureCount, successCount, lastFailureTime, halfOpenRequests, tripCount := Closed, 0, 0, 0, 0, 0;
    }

    function Value(): Breaker
      reads this
    {
      Breaker(state, failureCount, successCount, lastFailureTime, halfOpenRequests, tripCount)
    }

    method TryExecute(now: int) returns (admitted: bool)
      modifies this
      ensures CanExecute(config, old(Value()), now) == Verdict(admitted, Value())
    {
      match state
      case Closed => return true;
      case Open => {
        var elapsed := now - lastFailureTime;
        if elapsed >= config.resetTimeoutMs {
          state := HalfOpen;
          halfOpenRequests := 0;
          successCount := 0;
          if halfOpenRequests < config.halfOpenMaxRequests {
            halfOpenRequests := halfOpenRequests + 1;
            return true;
          }
          return false;
        }
        return false;
      }
      case HalfOpen => {
        if halfOpenRequests < config.halfOpenMaxRequests {
          halfOpenRequests := halfOpenRequests + 1;
          return true;
        }
        return false;
      }
    }

    method RecordSuccess()
      modifies this
      ensures Value() == OnSuccess(config, old(Value()))
    {
      match state
      case Closed => failureCount := 0;
      case Open =>
      case HalfOpen => {
        successCount := successCount + 1;
        if halfOpenRequests > 0 { halfOpenRequests := halfOpenRequests - 1; }
        if successCount >= config.successThreshold {
          state := Closed;
          failureCount := 0;
          successCount := 0;
          halfOpenRequests := 0;
        }
      }
    }

    method RecordFailure(now: int)
      modifies this
      ensures Value() == OnFailure(config, old(Value()), now)
    {
      lastFailureTime := now;
      match state
      case Closed => {
        failureCount := failureCount + 1;
        if failureCount >= config.failureThreshold {
          state := Open;
          tripCount := tripCount + 1;
        }
      }
      case Open =>
      case HalfOpen => {
        state := Open;
        tripCount := tripCount + 1;
        successCount := 0;
        halfOpenRequests := 0;
      }
    }

    method Reset()
      modifies this
      ensures Value() == AfterReset(old(Value()))
    {
      state := Closed;
      failureCount := 0;
      successCount := 0;
      halfOpenRequests := 0;
      lastFailureTime := 0;
    }
  }
}
