/**
 Starting and restarting the child process (src/proxy/stdio-mcp-client.ts:27-41, 219-240, 341-387): a budget
 of fast failures with exponential backoff. Times are in milliseconds; one child lives at a time.
 */
module RespawnBudget {

  const FAST_FAILURE_THRESHOLD_MS := 2000
  const RESPAWN_BACKOFF_BASE_MS := 250
  const MAX_RESPAWN_BACKOFF_MS := 30000
  const MAX_CONSECUTIVE_FAST_FAILURES: nat := 10

  function Power2(n: nat): nat {
    if n == 0 then 1 else 2 * Power2(n - 1)
  }

  /** The pause after the `n`-th fast failure in a row. */
  function Backoff(n: nat): nat
    requires n >= 1
  {
    var ms := RESPAWN_BACKOFF_BASE_MS * Power2(n - 1);
    if ms < MAX_RESPAWN_BACKOFF_MS then ms else MAX_RESPAWN_BACKOFF_MS
  }

  datatype Budget = Budget(alive: bool, stopped: bool, fastFailures: nat, nextRespawnAllowedAt: int, lastSpawnAt: int)

  const START := Budget(false, false, 0, 0, 0)

  datatype Launch = Running | ShutDown | OutOfBudget | Cooldown(waitMs: int) | Spawned

  /** Every operation may read the clock twice, and `later` is the second reading. */
  datatype Event =
    | Ensure(now: int, later: int)
    | Exit(external: bool, now: int, later: int)
    | ResetBudget
    | Stop

  function LaunchOf(s: Budget, now: int): Launch {
    if s.alive then Running
    else if s.stopped then ShutDown
    else if s.fastFailures >= MAX_CONSECUTIVE_FAST_FAILURES then OutOfBudget
    else if now < s.nextRespawnAllowedAt then Cooldown(s.nextRespawnAllowedAt - now)
    else Spawned
  }

  predicate Enabled(s: Budget, e: Event) {
    match e
    case Ensure(now, later) => now <= later
    case Exit(_, now, later) => s.alive && now <= later
    case ResetBudget => true
    case Stop => true
  }

  predicate FastExit(s: Budget, e: Event) {
    e.Exit? && !e.external && e.now - s.lastSpawnAt < FAST_FAILURE_THRESHOLD_MS
  }

  function Next(s: Budget, e: Event): Budget {
    match e
    case Ensure(now, later) => if LaunchOf(s, now).Spawned? then s.(alive := true, lastSpawnAt := later) else s
    case Exit(_, _, later) =>
      if FastExit(s, e) then
        s.(alive := false, fastFailures := s.fastFailures + 1,
           nextRespawnAllowedAt := later + Backoff(s.fastFailures + 1))
      else s.(alive := false, fastFailures := 0, nextRespawnAllowedAt := 0)
    case ResetBudget => s.(fastFailures := 0, nextRespawnAllowedAt := 0)
    case Stop => s.(stopped := true)
  }

  datatype Trace = Idle | After(past: Trace, event: Event)

  predicate Legal(trace: Trace) {
    match trace
    case Idle => true
    case After(past, e) => Legal(past) && Enabled(Reached(past), e)
  }

  function Reached(trace: Trace): Budget {
    match trace
    case Idle => START
    case After(past, e) => Next(Reached(past), e)
  }

  // ---------------------------------------------------------------------------------------------
  // History

  predicate Spawns(s: Budget, e: Event) {
    e.Ensure? && LaunchOf(s, e.now).Spawned?
  }

  /** The event clears the record of failures: a reset, a kill by signal, or the end of a long life. */
  predicate Forgives(s: Budget, e: Event) {
    e.ResetBudget? || (e.Exit? && !FastExit(s, e))
  }

  /** Fast exits since the record was last cleared. */
  function FastExits(trace: Trace): nat {
    match trace
    case Idle => 0
    case After(past, e) =>
      if FastExit(Reached(past), e) then FastExits(past) + 1
      else if Forgives(Reached(past), e) then 0
      else FastExits(past)
  }

  /** Spawns since the record was last cleared. */
  function SpawnCount(trace: Trace): nat {
    match trace
    case Idle => 0
    case After(past, e) =>
      if Forgives(Reached(past), e) then 0
      else SpawnCount(past) + (if Spawns(Reached(past), e) then 1 else 0)
  }

  /** All spawns of the run. */
  function AllSpawns(trace: Trace): nat {
    match trace
    case Idle => 0
    case After(past, e) => AllSpawns(past) + (if Spawns(Reached(past), e) then 1 else 0)
  }

  /** The time of the latest exit. */
  function LatestExit(trace: Trace): int {
    match trace
    case Idle => 0
    case After(past, e) => if e.Exit? then e.now else LatestExit(past)
  }

  /** No reset, no kill by signal, and no process that lives 2000 ms or more. */
  predicate Unforgiven(trace: Trace) {
    match trace
    case Idle => true
    case After(past, e) => Unforgiven(past) && !Forgives(Reached(past), e)
  }

  lemma {:induction false} RecordTellsHistory(trace: Trace)
    requires Legal(trace)
    ensures var s := Reached(trace);
            && s.fastFailures == FastExits(trace) <= MAX_CONSECUTIVE_FAST_FAILURES
            && (s.alive ==> s.fastFailures < MAX_CONSECUTIVE_FAST_FAILURES)
            && SpawnCount(trace) <= s.fastFailures + (if s.alive then 1 else 0)
            && (s.fastFailures >= 1 ==> s.nextRespawnAllowedAt >= LatestExit(trace) + Backoff(s.fastFailures))
  {
    hide Backoff;
    match trace
    case Idle =>
    case After(past, e) => RecordTellsHistory(past);
  }

  /** Between two forgiving events no run spawns more than 10 processes. */
  lemma AtMostTenSpawns(trace: Trace)
    requires Legal(trace)
    ensures SpawnCount(trace) <= MAX_CONSECUTIVE_FAST_FAILURES
  {
    RecordTellsHistory(trace);
  }

  lemma {:induction false} UnforgivenCountsAll(trace: Trace)
    requires Unforgiven(trace)
    ensures SpawnCount(trace) == AllSpawns(trace)
  {
    match trace
    case Idle =>
    case After(past, e) => UnforgivenCountsAll(past);
  }

  /** A crash loop is bounded: without forgiveness at most 10 processes are ever spawned. */
  lemma CrashLoopIsBounded(trace: Trace)
    requires Legal(trace) && Unforgiven(trace)
    ensures AllSpawns(trace) <= 10
  {
    AtMostTenSpawns(trace);
    UnforgivenCountsAll(trace);
  }

  /** After the `n`-th fast exit in a row the next spawn comes no earlier than min(250 * 2^(n-1), 30000) ms later. */
  lemma SpawnsAreSpaced(trace: Trace, now: int, later: int)
    requires Legal(After(trace, Ensure(now, later))) && Spawns(Reached(trace), Ensure(now, later))
    requires FastExits(trace) >= 1
    ensures Reached(After(trace, Ensure(now, later))).lastSpawnAt >= now
    ensures now >= LatestExit(trace) + Backoff(FastExits(trace))
  {
    RecordTellsHistory(trace);
    hide Backoff, Legal, FastExits, LatestExit;
  }

  // ---------------------------------------------------------------------------------------------
  // When a process is spawned

  /** The pauses in milliseconds after the first, second, ... fast exit in a row. */
  const PAUSES: seq<int> := [250, 500, 1000, 2000, 4000, 8000, 16000, 30000, 30000, 30000]

  lemma PausesDouble(n: nat)
    requires 1 <= n <= 10
    ensures Backoff(n) == PAUSES[n - 1]
  {
    assert Power2(4) == 16 && Power2(8) == 256 && Power2(9) == 512;
  }

  /** A process has been spawned and has not exited yet. */
  predicate Lives(trace: Trace) {
    match trace
    case Idle => false
    case After(past, e) => !e.Exit? && (Lives(past) || Spawns(Reached(past), e))
  }

  /** When the latest process was spawned. */
  function SpawnTime(trace: Trace): int {
    match trace
    case Idle => 0
    case After(past, e) => if Spawns(Reached(past), e) then e.later else SpawnTime(past)
  }

  predicate StoppedIn(trace: Trace) {
    match trace
    case Idle => false
    case After(past, e) => e.Stop? || StoppedIn(past)
  }

  /** When the pause after the latest exit began. */
  function PauseStart(trace: Trace): int {
    match trace
    case Idle => 0
    case After(past, e) => if e.Exit? then e.later else PauseStart(past)
  }

  lemma {:induction false} StateTellsHistory(trace: Trace)
    requires Legal(trace)
    ensures var s := Reached(trace);
            && s.alive == Lives(trace) && s.stopped == StoppedIn(trace) && s.lastSpawnAt == SpawnTime(trace)
            && s.fastFailures == FastExits(trace)
            && s.nextRespawnAllowedAt
               == (if FastExits(trace) == 0 then 0 else PauseStart(trace) + Backoff(FastExits(trace)))
  {
    hide Backoff;
    match trace
    case Idle =>
    case After(past, e) => StateTellsHistory(past);
  }

  /** An exit is a fast one exactly when no signal caused it and the process lived less than 2000 ms. */
  lemma FastExitExactly(trace: Trace, e: Event)
    requires Legal(After(trace, e))
    ensures FastExits(After(trace, e))
            == match e {
                 case Exit(external, now, _) =>
                   if !external && now - SpawnTime(trace) < 2000 then FastExits(trace) + 1 else 0
                 case ResetBudget => 0
                 case Ensure(_, _) => FastExits(trace)
                 case Stop => FastExits(trace)
               }
  {
    StateTellsHistory(trace);
    hide Legal, SpawnTime, Backoff;
  }

  /**
   What is done for a request, from the history alone. A living process is used, and otherwise one is spawned exactly
   when the client has not been stopped, fewer than 10 fast exits in a row lie behind, and the pause after the latest
   of them is over.
   */
  lemma LaunchExactly(trace: Trace, now: int)
    requires Legal(trace)
    ensures var n := FastExits(trace);
            LaunchOf(Reached(trace), now)
            == if Lives(trace) then Running
               else if StoppedIn(trace) then ShutDown
               else if n >= 10 then OutOfBudget
               else
                 var resumes := if n == 0 then 0 else PauseStart(trace) + PAUSES[n - 1];
                 if now < resumes then Cooldown(resumes - now) else Spawned
  {
    StateTellsHistory(trace);
    if 1 <= FastExits(trace) <= 10 { PausesDouble(FastExits(trace)); }
    hide Legal, FastExits, Backoff, Lives, StoppedIn, PauseStart;
  }

  /** The budget spent, nothing is spawned any more until it is reset. */
  lemma {:induction false} SpentStaysDown(trace: Trace, more: Trace, whole: Trace)
    requires Legal(whole) && whole == Joined(trace, more) && NoReset(more)
    requires Legal(trace) && FastExits(trace) >= MAX_CONSECUTIVE_FAST_FAILURES
    ensures AllSpawns(whole) == AllSpawns(trace)
    ensures !Reached(whole).alive && Reached(whole).fastFailures >= MAX_CONSECUTIVE_FAST_FAILURES
    decreases more
  {
    hide Backoff;
    RecordTellsHistory(trace);
    match more
    case Idle =>
    case After(past, e) => SpentStaysDown(trace, past, Joined(trace, past));
  }

  function Joined(trace: Trace, more: Trace): Trace {
    match more
    case Idle => trace
    case After(past, e) => After(Joined(trace, past), e)
  }

  predicate NoReset(trace: Trace) {
    match trace
    case Idle => true
    case After(past, e) => NoReset(past) && !e.ResetBudget?
  }

  // ---------------------------------------------------------------------------------------------
  // The class

  class ChildProcess {
    var alive: bool
    var stopped: bool
    var consecutiveFastFailures: nat
    var nextRespawnAllowedAt: int
    var lastSpawnAt: int

    constructor ()
      ensures Value() == START
    {
      alive, stopped, consecutiveFastFailures, nextRespawnAllowedAt, lastSpawnAt := false, false, 0, 0, 0;
    }

    function Value(): Budget
      reads this
    {
      Budget(alive, stopped, consecutiveFastFailures, nextRespawnAllowedAt, lastSpawnAt)
    }

    method EnsureProcess(now: int, later: int) returns (launch: Launch)
      modifies this
      ensures launch == LaunchOf(old(Value()), now) && Value() == Next(old(Value()), Ensure(now, later))
    {
      if alive {
        return Running;
      }
      if stopped {
        return ShutDown;
      }
      if consecutiveFastFailures >= MAX_CONSECUTIVE_FAST_FAILURES {
        return OutOfBudget;
      }
      if now < nextRespawnAllowedAt {
        return Cooldown(nextRespawnAllowedAt - now);
      }
      alive := true;
      lastSpawnAt := later;
      launch := Spawned;
    }

    /** The handlers of `exit` and `error`, with `recordExit`. */
    method OnExit(wasExternalSignal: bool, now: int, later: int)
      requires alive
      modifies this
      ensures Value() == Next(old(Value()), Exit(wasExternalSignal, now, later))
    {
      alive := false;
      if wasExternalSignal {
        consecutiveFastFailures := 0;
        nextRespawnAllowedAt := 0;
        return;
      }
      var livedMs := now - lastSpawnAt;
      if livedMs < FAST_FAILURE_THRESHOLD_MS {
        consecutiveFastFailures := consecutiveFastFailures + 1;
        var backoff := DoubledBackoff(consecutiveFastFailures);
        nextRespawnAllowedAt := later + backoff;
      } else {
        consecutiveFastFailures := 0;
        nextRespawnAllowedAt := 0;
      }
    }

    static method DoubledBackoff(failures: nat) returns (ms: nat)
      requires failures >= 1
      ensures ms == Backoff(failures)
    {
      ms := RESPAWN_BACKOFF_BASE_MS * Power2(failures - 1);
      if ms > MAX_RESPAWN_BACKOFF_MS {
        ms := MAX_RESPAWN_BACKOFF_MS;
      }
    }

    method ResetRespawnBudget()
      modifies this
      ensures Value() == Next(old(Value()), ResetBudget)
    {
      consecutiveFastFailures := 0;
      nextRespawnAllowedAt := 0;
    }

    method ShutDownClient()
      modifies this
      ensures Value() == Next(old(Value()), Stop)
    {
      stopped := true;
    }
  }
}
