/**
 Single flight (src/cache/inflight.ts): callers with the same key share one factory run. The state
 machine takes each synchronous segment of `deduplicate` and each promise reaction as one step.
 */
module Inflight {
  import opened JsonText
  import opened CacheKey

  datatype Failure = RpcError(code: int, message: Text) | IdentityError(message: Text) | OtherError

  datatype Outcome = Value(result: Json) | Failed(error: Failure)

  /** `promise` is the index of the factory run. */
  datatype InflightEntry = InflightEntry(promise: nat, startedAt: int, coalesced: nat)

  /** A run is cleaned once the reaction to its settling has deleted its key. */
  datatype Phase = Running | Settled(outcome: Outcome) | Cleaned(outcome: Outcome)

  datatype FactoryRun = FactoryRun(key: Digest, leader: nat, phase: Phase)

  datatype Call =
    | Refused(error: Failure)
    | Awaiting(key: Digest, promise: nat, wasCoalesced: bool)
    | Got(key: Digest, promise: nat, wasCoalesced: bool, outcome: Outcome)

  datatype Flights = Flights(inflight: map<Digest, InflightEntry>, runs: seq<FactoryRun>, calls: map<nat, Call>)

  /** What the factory does before it returns. */
  datatype Start = Returns | Throws(error: Failure)

  datatype Event =
    | Begin(caller: nat, key: Digest, now: int, start: Start)
    | Settle(run: nat, outcome: Outcome)
    | Cleanup(run: nat)
    | Deliver(caller: nat)

  predicate Enabled(s: Flights, e: Event) {
    match e
    case Begin(caller, _, _, _) => caller !in s.calls
    case Settle(run, _) => run < |s.runs| && s.runs[run].phase.Running?
    case Cleanup(run) => run < |s.runs| && s.runs[run].phase.Settled?
    case Deliver(caller) =>
      && caller in s.calls && s.calls[caller].Awaiting?
      && s.calls[caller].promise < |s.runs| && s.runs[s.calls[caller].promise].phase.Cleaned?
  }

  function Join(s: Flights, caller: nat, key: Digest): Flights
    requires key in s.inflight
  {
    var entry := s.inflight[key];
    s.(inflight := s.inflight[key := entry.(coalesced := entry.coalesced + 1)],
       calls := s.calls[caller := Awaiting(key, entry.promise, true)])
  }

  function Lead(s: Flights, caller: nat, key: Digest, now: int): Flights {
    Flights(s.inflight[key := InflightEntry(|s.runs|, now, 0)],
            s.runs + [FactoryRun(key, caller, Running)],
            s.calls[caller := Awaiting(key, |s.runs|, false)])
  }

  function Next(s: Flights, e: Event): Flights
    requires Enabled(s, e)
  {
    match e
    case Begin(caller, key, now, start) =>
      if key in s.inflight then Join(s, caller, key)
      else if start.Throws? then s.(calls := s.calls[caller := Refused(start.error)])
      else Lead(s, caller, key, now)
    case Settle(run, outcome) => s.(runs := s.runs[run := s.runs[run].(phase := Settled(outcome))])
    case Cleanup(run) =>
      s.(inflight := s.inflight - {s.runs[run].key},
         runs := s.runs[run := s.runs[run].(phase := Cleaned(s.runs[run].phase.outcome))])
    case Deliver(caller) =>
      var call := s.calls[caller];
      s.(calls := s.calls[caller := Got(call.key, call.promise, call.wasCoalesced, s.runs[call.promise].phase.outcome)])
  }

  datatype Trace = Idle | After(past: Trace, event: Event)

  predicate Legal(trace: Trace)
    decreases trace, 0
  {
    match trace
    case Idle => true
    case After(past, e) => Legal(past) && Enabled(Reached(past), e)
  }

  function Reached(trace: Trace): Flights
    requires Legal(trace)
    decreases trace, 1
  {
    match trace
    case Idle => Flights(map[], [], map[])
    case After(past, e) => Next(Reached(past), e)
  }

  // ---------------------------------------------------------------------------------------------
  // Invariant

  /** The map holds exactly the runs that are not cleaned yet, each under its own key. */
  ghost predicate MapMatches(inflight: map<Digest, InflightEntry>, runs: seq<FactoryRun>) {
    && (forall key :: key in inflight ==>
          && inflight[key].promise < |runs|
          && runs[inflight[key].promise].key == key && !runs[inflight[key].promise].phase.Cleaned?)
    && (forall p :: 0 <= p < |runs| && !runs[p].phase.Cleaned? ==>
          runs[p].key in inflight && inflight[runs[p].key].promise == p)
  }

  predicate CallFits(call: Call, caller: nat, runs: seq<FactoryRun>) {
    match call
    case Refused(_) => true
    case Awaiting(key, p, c) => p < |runs| && runs[p].key == key && (c <==> runs[p].leader != caller)
    case Got(key, p, c, o) =>
      p < |runs| && runs[p].key == key && (c <==> runs[p].leader != caller) && runs[p].phase == Cleaned(o)
  }

  ghost predicate CallsFit(calls: map<nat, Call>, runs: seq<FactoryRun>) {
    && (forall caller :: caller in calls ==> CallFits(calls[caller], caller, runs))
    && (forall p :: 0 <= p < |runs| ==> runs[p].leader in calls && Leads(calls[runs[p].leader], p))
  }

  predicate Leads(call: Call, p: nat) {
    !call.Refused? && call.promise == p
  }

  /** The callers that joined a run. */
  function Joined(calls: map<nat, Call>, p: nat): set<nat> {
    set caller | caller in calls && Leads(calls[caller], p) && calls[caller].wasCoalesced
  }

  /** The callers that started a run. */
  function Leaders(calls: map<nat, Call>): set<nat> {
    set caller | caller in calls && !calls[caller].Refused? && !calls[caller].wasCoalesced
  }

  ghost predicate Counted(s: Flights) {
    && |Leaders(s.calls)| == |s.runs|
    && (forall key :: key in s.inflight ==> s.inflight[key].coalesced == |Joined(s.calls, s.inflight[key].promise)|)
  }

  ghost predicate Good(s: Flights) {
    MapMatches(s.inflight, s.runs) && CallsFit(s.calls, s.runs) && Counted(s)
  }

  lemma JoinGood(s: Flights, caller: nat, key: Digest)
    requires Good(s) && caller !in s.calls && key in s.inflight
    ensures Good(Join(s, caller, key))
  {
    JoinCounted(s, caller, key);
    hide Counted;
    var entry := s.inflight[key];
    JoinMatches(s.inflight, s.runs, key, entry.(coalesced := entry.coalesced + 1));
    assert s.runs[entry.promise].key == key && s.runs[entry.promise].leader in s.calls;
    hide MapMatches, CallsFit;
    OneMoreCall(s.calls, s.runs, caller, Awaiting(key, entry.promise, true));
  }

  lemma JoinMatches(inflight: map<Digest, InflightEntry>, runs: seq<FactoryRun>, key: Digest, entry: InflightEntry)
    requires MapMatches(inflight, runs) && key in inflight && entry.promise == inflight[key].promise
    ensures MapMatches(inflight[key := entry], runs)
  {
  }

  lemma OneMoreCall(calls: map<nat, Call>, runs: seq<FactoryRun>, caller: nat, call: Call)
    requires CallsFit(calls, runs) && caller !in calls && CallFits(call, caller, runs)
    ensures CallsFit(calls[caller := call], runs)
  {
    assert forall p :: 0 <= p < |runs| ==> runs[p].leader in calls;
    hide CallFits;
  }

  lemma JoinCounted(s: Flights, caller: nat, key: Digest)
    requires MapMatches(s.inflight, s.runs) && Counted(s) && caller !in s.calls && key in s.inflight
    ensures Counted(Join(s, caller, key))
  {
    var r, p := Join(s, caller, key), s.inflight[key].promise;
    assert Leaders(r.calls) == Leaders(s.calls);
    forall k | k in r.inflight ensures r.inflight[k].coalesced == |Joined(r.calls, r.inflight[k].promise)| {
      if k == key {
        assert Joined(r.calls, p) == Joined(s.calls, p) + {caller};
      } else {
        assert Joined(r.calls, r.inflight[k].promise) == Joined(s.calls, r.inflight[k].promise);
      }
    }
  }

  lemma LeadGood(s: Flights, caller: nat, key: Digest, now: int)
    requires Good(s) && caller !in s.calls && key !in s.inflight
    ensures Good(Lead(s, caller, key, now))
  {
    LeadCounted(s, caller, key, now);
    hide Counted;
    LeadMatches(s.inflight, s.runs, key, caller, now);
    hide MapMatches;
    LeadFits(s.calls, s.runs, key, caller);
    hide CallsFit;
  }

  lemma LeadMatches(inflight: map<Digest, InflightEntry>, runs: seq<FactoryRun>, key: Digest, caller: nat, now: int)
    requires MapMatches(inflight, runs) && key !in inflight
    ensures MapMatches(inflight[key := InflightEntry(|runs|, now, 0)], runs + [FactoryRun(key, caller, Running)])
  {
    var more := runs + [FactoryRun(key, caller, Running)];
    assert forall p :: 0 <= p < |runs| ==> more[p] == runs[p];
  }

  lemma LeadFits(calls: map<nat, Call>, runs: seq<FactoryRun>, key: Digest, caller: nat)
    requires CallsFit(calls, runs) && caller !in calls
    ensures CallsFit(calls[caller := Awaiting(key, |runs|, false)], runs + [FactoryRun(key, caller, Running)])
  {
    var more := runs + [FactoryRun(key, caller, Running)];
    assert forall p :: 0 <= p < |runs| ==> more[p] == runs[p];
  }

  lemma LeadCounted(s: Flights, caller: nat, key: Digest, now: int)
    requires Good(s) && caller !in s.calls && key !in s.inflight
    ensures Counted(Lead(s, caller, key, now))
  {
    assert forall k :: k in s.inflight ==> s.inflight[k].promise < |s.runs|;
    assert Joined(s.calls, |s.runs|) == {};
    hide CallsFit, MapMatches;
    var r := Lead(s, caller, key, now);
    assert Leaders(r.calls) == Leaders(s.calls) + {caller};
    forall k | k in r.inflight ensures r.inflight[k].coalesced == |Joined(r.calls, r.inflight[k].promise)| {
      assert Joined(r.calls, r.inflight[k].promise) == Joined(s.calls, r.inflight[k].promise);
    }
  }

  lemma RefuseGood(s: Flights, caller: nat, error: Failure)
    requires Good(s) && caller !in s.calls
    ensures Good(s.(calls := s.calls[caller := Refused(error)]))
  {
    var r := s.(calls := s.calls[caller := Refused(error)]);
    assert CallsFit(r.calls, r.runs);
    assert Leaders(r.calls) == Leaders(s.calls);
    assert forall p :: Joined(r.calls, p) == Joined(s.calls, p);
  }

  lemma PhaseGood(s: Flights, e: Event)
    requires Good(s) && Enabled(s, e) && (e.Settle? || e.Cleanup?)
    ensures Good(Next(s, e))
  {
    if e.Settle? {
      PhaseFits(s.calls, s.runs, e.run, Settled(e.outcome));
      SettledMatches(s.inflight, s.runs, e.run, e.outcome);
    } else {
      PhaseFits(s.calls, s.runs, e.run, Cleaned(s.runs[e.run].phase.outcome));
      CleanedMatches(s.inflight, s.runs, e.run, s.runs[e.run].phase.outcome);
    }
    hide MapMatches, CallsFit;
  }

  lemma SettledMatches(inflight: map<Digest, InflightEntry>, runs: seq<FactoryRun>, run: nat, outcome: Outcome)
    requires MapMatches(inflight, runs) && run < |runs| && runs[run].phase.Running?
    ensures MapMatches(inflight, runs[run := runs[run].(phase := Settled(outcome))])
  {
  }

  lemma CleanedMatches(inflight: map<Digest, InflightEntry>, runs: seq<FactoryRun>, run: nat, outcome: Outcome)
    requires MapMatches(inflight, runs) && run < |runs| && runs[run].phase.Settled?
    ensures MapMatches(inflight - {runs[run].key}, runs[run := runs[run].(phase := Cleaned(outcome))])
  {
  }

  lemma PhaseFits(calls: map<nat, Call>, runs: seq<FactoryRun>, run: nat, phase: Phase)
    requires CallsFit(calls, runs) && run < |runs| && !runs[run].phase.Cleaned?
    ensures CallsFit(calls, runs[run := runs[run].(phase := phase)])
  {
  }

  lemma DeliverGood(s: Flights, caller: nat)
    requires Good(s) && Enabled(s, Deliver(caller))
    ensures Good(Next(s, Deliver(caller)))
  {
    var r := Next(s, Deliver(caller));
    assert CallsFit(r.calls, r.runs);
    assert Leaders(r.calls) == Leaders(s.calls);
    assert forall p :: Joined(r.calls, p) == Joined(s.calls, p);
  }

  lemma NextGood(s: Flights, e: Event)
    requires Good(s) && Enabled(s, e)
    ensures Good(Next(s, e))
  {
    hide Good;
    match e
    case Begin(caller, key, now, start) => {
      if key in s.inflight {
        JoinGood(s, caller, key);
      } else if start.Throws? {
        RefuseGood(s, caller, start.error);
      } else {
        LeadGood(s, caller, key, now);
      }
    }
    case Settle(_, _) => PhaseGood(s, e);
    case Cleanup(_) => PhaseGood(s, e);
    case Deliver(caller) => DeliverGood(s, caller);
  }

  lemma {:induction false} AlwaysGood(trace: Trace)
    requires Legal(trace)
    ensures Good(Reached(trace))
  {
    match trace
    case Idle => assert Leaders(map[]) == {};
    case After(past, e) => {
      AlwaysGood(past);
      NextGood(Reached(past), e);
    }
  }

  // ---------------------------------------------------------------------------------------------
  // What the invariant gives

  /** At any time at most one run per key is unfinished, and it is the one that new callers join. */
  lemma SingleFlight(trace: Trace, p: nat, q: nat)
    requires Legal(trace) && p < |Reached(trace).runs| && q < |Reached(trace).runs|
    requires !Reached(trace).runs[p].phase.Cleaned? && !Reached(trace).runs[q].phase.Cleaned?
    requires Reached(trace).runs[p].key == Reached(trace).runs[q].key
    ensures p == q
  {
    AlwaysGood(trace);
    hide CallsFit, Counted, Reached;
  }

  /** A caller that got an outcome got the one of the only run it joined or led, for the key it asked for. */
  lemma JoinersShareOutcome(trace: Trace, caller: nat)
    requires Legal(trace) && caller in Reached(trace).calls && Reached(trace).calls[caller].Got?
    ensures var s := Reached(trace);
            var call := s.calls[caller];
            && call.promise < |s.runs| && s.runs[call.promise].key == call.key
            && var leader := s.runs[call.promise].leader;
               && leader in s.calls && !s.calls[leader].Refused? && s.calls[leader].promise == call.promise
               && (call.wasCoalesced <==> leader != caller)
               && s.calls[leader].key == call.key && !s.calls[leader].wasCoalesced
               && (s.calls[leader].Got? ==> s.calls[leader].outcome == call.outcome)
               && s.runs[call.promise].phase == Cleaned(call.outcome)
  {
    AlwaysGood(trace);
    hide MapMatches, Counted, Reached;
    var s := Reached(trace);
    var leader := s.runs[s.calls[caller].promise].leader;
    assert CallFits(s.calls[leader], leader, s.runs);
  }

  /** The factory has run exactly once for each caller that was not coalesced. */
  lemma OneRunPerLeader(trace: Trace)
    requires Legal(trace)
    ensures |Reached(trace).runs| == |Leaders(Reached(trace).calls)|
  {
    AlwaysGood(trace);
    hide MapMatches, CallsFit, Reached;
  }

  /** The map empties once all runs have settled and cleaned up. */
  lemma EmptyWhenAllClean(trace: Trace)
    requires Legal(trace)
    ensures var s := Reached(trace); s.inflight == map[] <==> forall p :: 0 <= p < |s.runs| ==> s.runs[p].phase.Cleaned?
  {
    AlwaysGood(trace);
    hide CallsFit, Counted, Reached;
  }

  /** A waiting caller waits for its run only: once that is clean, its outcome can be delivered. */
  lemma NobodyIsStuck(trace: Trace, caller: nat)
    requires Legal(trace) && caller in Reached(trace).calls && Reached(trace).calls[caller].Awaiting?
    ensures var s := Reached(trace);
            var p := s.calls[caller].promise;
            && p < |s.runs|
            && match s.runs[p].phase {
                 case Running => forall o :: Enabled(s, Settle(p, o))
                 case Settled(_) => Enabled(s, Cleanup(p))
                 case Cleaned(_) => Enabled(s, Deliver(caller))
               }
  {
    AlwaysGood(trace);
    hide MapMatches, Counted, Reached;
  }

  /** The tracker, with a ghost record of the promises and of the callers awaiting them. */
  class InflightTracker {
    var inflight: map<Digest, InflightEntry>
    ghost var flights: Flights

    constructor ()
      ensures Valid() && flights == Flights(map[], [], map[])
    {
      inflight := map[];
      flights := Flights(map[], [], map[]);
      new;
      assert Leaders(map[]) == {};
    }

    ghost predicate Valid()
      reads this
    {
      inflight == flights.inflight && Good(flights)
    }

    /** The synchronous part of a call; `promise` is what the factory returns when it does not throw. */
    method Deduplicate(caller: nat, key: Digest, now: int, start: Start, promise: nat) returns (call: Call)
      requires Valid() && caller !in flights.calls && promise == |flights.runs|
      modifies this
      ensures Valid() && flights == Next(old(flights), Begin(caller, key, now, start))
      ensures caller in flights.calls && call == flights.calls[caller]
    {
      NextGood(flights, Begin(caller, key, now, start));
      hide Good;
      flights := Next(flights, Begin(caller, key, now, start));
      if key in inflight {
        var existing := inflight[key];
        inflight := inflight[key := existing.(coalesced := existing.coalesced + 1)];
        return Awaiting(key, existing.promise, true);
      }
      if start.Throws? {
        return Refused(start.error);
      }
      inflight := inflight[key := InflightEntry(promise, now, 0)];
      call := Awaiting(key, promise, false);
    }

    /** The reaction to a settled factory promise deletes the key it was created for. */
    method Finally(key: Digest, ghost run: nat)
      requires Valid() && Enabled(flights, Cleanup(run)) && flights.runs[run].key == key
      modifies this
      ensures Valid() && flights == Next(old(flights), Cleanup(run))
    {
      NextGood(flights, Cleanup(run));
      hide Good;
      flights := Next(flights, Cleanup(run));
      inflight := inflight - {key};
    }

    /** The factory promise settles: no code of the tracker runs yet. */
    ghost method FactorySettles(run: nat, outcome: Outcome)
      requires Valid() && Enabled(flights, Settle(run, outcome))
      modifies this
      ensures Valid() && flights == Next(old(flights), Settle(run, outcome))
    {
      NextGood(flights, Settle(run, outcome));
      hide Good;
      flights := Next(flights, Settle(run, outcome));
    }

    /** A caller resumes after its await. */
    ghost method Resume(caller: nat)
      requires Valid() && Enabled(flights, Deliver(caller))
      modifies this
      ensures Valid() && flights == Next(old(flights), Deliver(caller))
    {
      NextGood(flights, Deliver(caller));
      hide Good;
      flights := Next(flights, Deliver(caller));
    }
  }
}
