/**
 The cacheable path of a tool call (src/gateway/pipeline.ts:701-917): cache lookup, single flight, upstream
 reply, caching and answer, with every `await` a point where the calls of other clients may run.
 */
module CachePath {
  import opened Wrappers
  import opened JsonText
  import opened CanonicalJson
  import opened CacheKey
  import opened LruCache
  import opened CacheStore
  import Inflight

  const IS_ERROR: Text := [105, 115, 69, 114, 114, 111, 114]
  const INTERNAL_ERROR := -32603
  const UPSTREAM_ERROR: Text := [85, 112, 115, 116, 114, 101, 97, 109, 32, 101, 114, 114, 111, 114]

  /** The arguments come from a JSON text, so keys are distinct at every depth. */
  type Identity = x: KeyOptions | WellFormed(Object(x.args)) witness KeyOptions([], [], [], None, None, {})

  /** A cacheable call: its resolved identity and the time to live that its policy gives. */
  datatype Request = Request(identity: Identity, ttl: int)

  function KeyOf(r: Request): Digest {
    GenerateCacheKey(r.identity)
  }

  datatype ErrorBody = ErrorBody(code: Option<int>, message: Option<Text>)

  /** What the upstream call ends in: a JSON reply, a streamed reply, which has no body, or an exception. */
  datatype Reply = Body(error: Option<ErrorBody>, result: Option<Json>) | Streamed | Thrown(failure: Inflight.Failure)

  /** The factory given to `deduplicate`. */
  function OutcomeOf(reply: Reply): Inflight.Outcome {
    match reply
    case Thrown(failure) => Inflight.Failed(failure)
    case Streamed => Inflight.Value(Object([]))
    case Body(Some(e), _) =>
      Inflight.Failed(Inflight.RpcError(if e.code.Some? then e.code.value else INTERNAL_ERROR,
                                        if e.message.Some? then e.message.value else UPSTREAM_ERROR))
    case Body(None, result) =>
      Inflight.Value(if result.Some? && result.value != Null then result.value else Object([]))
  }

  /**
   The answer that a client is given for a reply without an error: the result in it, and an empty object when the
   reply has none or is streamed.
   */
  predicate Gave(reply: Reply, result: Json) {
    && !reply.Thrown? && (reply.Body? ==> reply.error.None?)
    && if reply.Body? && reply.result.Some? && reply.result.value != Null then result == reply.result.value
       else result == Object([])
  }

  lemma GaveExactly(reply: Reply, result: Json)
    ensures OutcomeOf(reply) == Inflight.Value(result) <==> Gave(reply, result)
  {
  }

  predicate IsToolError(result: Json) {
    result.Object? && Member(IS_ERROR, Boolean(true)) in result.members
  }

  datatype Answer =
    | Hit(result: Json, createdAt: int, ttl: int, at: int)
    | Miss(result: Json)
    | SkipError(result: Json)
    | RateLimited
    | ErrorReply(failure: Inflight.Failure)

  datatype Receipt = Receipt(reply: Reply, at: int)

  /** `receipts` records the upstream reply of each factory run that has settled. */
  datatype Path = Path(
    now: int, store: map<Digest, CacheEntry>, flights: Inflight.Flights,
    requests: map<nat, Request>, receipts: map<nat, Receipt>, answers: map<nat, Answer>)

  datatype Event =
    | Tick(to: int)
    | LookUp(caller: nat, request: Request)
    | Limit(caller: nat)
    | Call(caller: nat, start: Inflight.Start)
    | Upstream(run: nat, reply: Reply)
    | Cleanup(run: nat)
    | Deliver(caller: nat)
    | Finish(caller: nat, bytes: nat, evicted: set<Digest>)
    | Forget(gone: set<Digest>)

  /** The call has missed the cache and has not gone to the tracker yet. */
  predicate Missed(s: Path, caller: nat) {
    caller in s.requests && caller !in s.answers && caller !in s.flights.calls
  }

  predicate Enabled(s: Path, e: Event) {
    match e
    case Tick(to) => s.now <= to
    case LookUp(caller, _) => caller !in s.requests
    case Limit(caller) => Missed(s, caller)
    case Call(caller, _) => Missed(s, caller)
    case Upstream(run, reply) => Inflight.Enabled(s.flights, Inflight.Settle(run, OutcomeOf(reply)))
    case Cleanup(run) => Inflight.Enabled(s.flights, Inflight.Cleanup(run))
    case Deliver(caller) => Inflight.Enabled(s.flights, Inflight.Deliver(caller))
    case Finish(caller, _, _) =>
      caller in s.requests && caller !in s.answers && caller in s.flights.calls && !s.flights.calls[caller].Awaiting?
    case Forget(_) => true
  }

  function AfterLookUp(s: Path, caller: nat, request: Request): Path {
    var key := KeyOf(request);
    var found := Found(s.store, key, s.now);
    s.(requests := s.requests[caller := request],
       store := if found.Some? then s.store else s.store - {key},
       answers := if found.Some? then
                    s.answers[caller := Hit(found.value.result, found.value.createdAt, found.value.ttl, s.now)]
                  else s.answers)
  }

  function NewEntry(r: Request, result: Json, now: int, bytes: nat): CacheEntry {
    CacheEntry(result, now, r.ttl, r.identity.toolName, ServerId(r.identity.serverId), bytes)
  }

  function AfterFinish(s: Path, maxEntryBytes: nat, caller: nat, bytes: nat, evicted: set<Digest>): Path
    requires Enabled(s, Finish(caller, bytes, evicted))
  {
    var call := s.flights.calls[caller];
    if call.Refused? then s.(answers := s.answers[caller := ErrorReply(call.error)])
    else if call.outcome.Failed? then s.(answers := s.answers[caller := ErrorReply(call.outcome.error)])
    else if IsToolError(call.outcome.result) then s.(answers := s.answers[caller := SkipError(call.outcome.result)])
    else
      var entry := NewEntry(s.requests[caller], call.outcome.result, s.now, bytes);
      s.(store := if bytes > maxEntryBytes then s.store else (s.store - evicted)[KeyOf(s.requests[caller]) := entry],
         answers := s.answers[caller := Miss(call.outcome.result)])
  }

  function Next(s: Path, maxEntryBytes: nat, e: Event): Path
    requires Enabled(s, e)
  {
    match e
    case Tick(to) => s.(now := to)
    case LookUp(caller, request) => AfterLookUp(s, caller, request)
    case Limit(caller) => s.(answers := s.answers[caller := RateLimited])
    case Call(caller, start) =>
      s.(flights := Inflight.Next(s.flights, Inflight.Begin(caller, KeyOf(s.requests[caller]), s.now, start)))
    case Upstream(run, reply) =>
      s.(flights := Inflight.Next(s.flights, Inflight.Settle(run, OutcomeOf(reply))),
         receipts := s.receipts[run := Receipt(reply, s.now)])
    case Cleanup(run) => s.(flights := Inflight.Next(s.flights, Inflight.Cleanup(run)))
    case Deliver(caller) => s.(flights := Inflight.Next(s.flights, Inflight.Deliver(caller)))
    case Finish(caller, bytes, evicted) => AfterFinish(s, maxEntryBytes, caller, bytes, evicted)
    case Forget(gone) => s.(store := s.store - gone)
  }

  datatype Trace = Idle(start: int) | After(past: Trace, event: Event)

  predicate Legal(trace: Trace, maxEntryBytes: nat)
    decreases trace, 0
  {
    match trace
    case Idle(_) => true
    case After(past, e) => Legal(past, maxEntryBytes) && Enabled(Reached(past, maxEntryBytes), e)
  }

  function Reached(trace: Trace, maxEntryBytes: nat): Path
    requires Legal(trace, maxEntryBytes)
    decreases trace, 1
  {
    match trace
    case Idle(start) => Path(start, map[], Inflight.Flights(map[], [], map[]), map[], map[], map[])
    case After(past, e) => Next(Reached(past, maxEntryBytes), maxEntryBytes, e)
  }

  // ---------------------------------------------------------------------------------------------
  // Invariant

  /** Calls carry the keys of their requests. */
  ghost predicate CallsRecorded(calls: map<nat, Inflight.Call>, requests: map<nat, Request>) {
    forall c :: c in calls ==> c in requests && (calls[c].Refused? || calls[c].key == KeyOf(requests[c]))
  }

  /** Exactly the settled runs have receipts, and with the outcome they settled with. */
  ghost predicate RunsRecorded(runs: seq<Inflight.FactoryRun>, receipts: map<nat, Receipt>, now: int) {
    && (forall p :: p in receipts ==> p < |runs|)
    && (forall p :: 0 <= p < |runs| ==> RunRecorded(runs[p].phase, receipts, p, now))
  }

  predicate RunRecorded(phase: Inflight.Phase, receipts: map<nat, Receipt>, p: nat, now: int) {
    if phase.Running? then p !in receipts
    else p in receipts && receipts[p].at <= now && OutcomeOf(receipts[p].reply) == phase.outcome
  }

  ghost predicate Recorded(s: Path) {
    CallsRecorded(s.flights.calls, s.requests) && RunsRecorded(s.flights.runs, s.receipts, s.now)
  }

  /** `writer` got `result` from upstream under this key, at or before `createdAt`. */
  predicate WroteIt(s: Path, writer: nat, key: Digest, result: Json, createdAt: int, ttl: int) {
    && writer in s.requests && writer in s.flights.calls
    && var call := s.flights.calls[writer];
       && call.Got? && call.key == key && call.outcome == Inflight.Value(result)
       && call.promise in s.receipts && s.receipts[call.promise].at <= createdAt <= s.now
       && ttl == s.requests[writer].ttl && !IsToolError(result)
  }

  ghost predicate Written(s: Path, key: Digest, result: Json, createdAt: int, ttl: int) {
    exists writer :: WroteIt(s, writer, key, result, createdAt, ttl)
  }

  ghost predicate StoreJustified(s: Path) {
    forall key :: key in s.store ==> Written(s, key, s.store[key].result, s.store[key].createdAt, s.store[key].ttl)
  }

  ghost predicate AnswerJustified(s: Path, caller: nat, answer: Answer) {
    match answer
    case Hit(result, createdAt, ttl, at) =>
      && caller in s.requests && at - createdAt <= ttl * 1000
      && Written(s, KeyOf(s.requests[caller]), result, createdAt, ttl)
    case RateLimited => caller in s.requests
    case Miss(result) =>
      && caller in s.flights.calls && s.flights.calls[caller].Got?
      && s.flights.calls[caller].outcome == Inflight.Value(result)
      && !IsToolError(result)
    case SkipError(result) =>
      && caller in s.flights.calls && s.flights.calls[caller].Got?
      && s.flights.calls[caller].outcome == Inflight.Value(result)
      && IsToolError(result)
    case ErrorReply(failure) =>
      && caller in s.flights.calls
      && match s.flights.calls[caller] {
           case Refused(e) => e == failure
           case Got(_, _, _, o) => o == Inflight.Failed(failure)
           case Awaiting(_, _, _) => false
         }
  }

  ghost predicate AnswersJustified(s: Path) {
    forall c :: c in s.answers ==> AnswerJustified(s, c, s.answers[c])
  }

  ghost predicate Sound(s: Path) {
    Inflight.Good(s.flights) && Recorded(s) && StoreJustified(s) && AnswersJustified(s)
  }

  /** What is known of callers, runs and receipts is never unlearned. */
  ghost predicate Grows(s: Path, r: Path) {
    && s.now <= r.now
    && (forall c :: c in s.requests ==> c in r.requests && r.requests[c] == s.requests[c])
    && (forall c :: c in s.flights.calls && !s.flights.calls[c].Awaiting? ==>
          c in r.flights.calls && r.flights.calls[c] == s.flights.calls[c])
    && (forall p :: p in s.receipts ==> p in r.receipts && r.receipts[p] == s.receipts[p])
  }

  lemma WrittenGrows(s: Path, r: Path, key: Digest, result: Json, createdAt: int, ttl: int)
    requires Grows(s, r) && Written(s, key, result, createdAt, ttl)
    ensures Written(r, key, result, createdAt, ttl)
  {
    hide IsToolError;
    var writer :| WroteIt(s, writer, key, result, createdAt, ttl);
    assert WroteIt(r, writer, key, result, createdAt, ttl);
  }

  lemma AnswerGrows(s: Path, r: Path, caller: nat, answer: Answer)
    requires Grows(s, r) && AnswerJustified(s, caller, answer)
    ensures AnswerJustified(r, caller, answer)
  {
    if answer.Hit? {
      WrittenGrows(s, r, KeyOf(s.requests[caller]), answer.result, answer.createdAt, answer.ttl);
    }
    hide Written, KeyOf, IsToolError;
  }

  lemma StoreKept(s: Path, r: Path)
    requires Grows(s, r) && StoreJustified(s)
    requires forall key :: key in r.store ==>
      || (key in s.store && r.store[key] == s.store[key])
      || Written(r, key, r.store[key].result, r.store[key].createdAt, r.store[key].ttl)
    ensures StoreJustified(r)
  {
    hide Grows, Written;
    forall key | key in r.store
      ensures Written(r, key, r.store[key].result, r.store[key].createdAt, r.store[key].ttl)
    {
      if key in s.store && r.store[key] == s.store[key] {
        WrittenGrows(s, r, key, s.store[key].result, s.store[key].createdAt, s.store[key].ttl);
      }
    }
  }

  lemma AnswersKept(s: Path, r: Path)
    requires Grows(s, r) && AnswersJustified(s)
    requires forall c :: c in r.answers ==>
      || (c in s.answers && r.answers[c] == s.answers[c])
      || AnswerJustified(r, c, r.answers[c])
    ensures AnswersJustified(r)
  {
    hide Grows, AnswerJustified;
    forall c | c in r.answers ensures AnswerJustified(r, c, r.answers[c]) {
      if c in s.answers && r.answers[c] == s.answers[c] {
        AnswerGrows(s, r, c, s.answers[c]);
      }
    }
  }

  // ---------------------------------------------------------------------------------------------
  // Every step keeps the invariant

  /** Steps that leave flights and receipts alone. */
  lemma LocalStep(s: Path, r: Path)
    requires Recorded(s) && s.now <= r.now && r.flights == s.flights && r.receipts == s.receipts
    requires forall c :: c in s.requests ==> c in r.requests && r.requests[c] == s.requests[c]
    ensures Grows(s, r) && Recorded(r)
  {
    hide KeyOf, OutcomeOf;
  }

  lemma CallStep(s: Path, maxEntryBytes: nat, caller: nat, start: Inflight.Start)
    requires Recorded(s) && Enabled(s, Call(caller, start))
    ensures var r := Next(s, maxEntryBytes, Call(caller, start)); Grows(s, r) && Recorded(r)
  {
    var r, key := Next(s, maxEntryBytes, Call(caller, start)), KeyOf(s.requests[caller]);
    BeginShape(s.flights, caller, key, s.now, start);
    OneMoreCall(s.flights.calls, s.requests, caller, r.flights.calls[caller]);
    MoreRuns(s.flights.runs, r.flights.runs, s.receipts, s.now);
    hide KeyOf, OutcomeOf, Inflight.Next, CallsRecorded, RunsRecorded, Grows;
    CallsGrow(s, r, caller);
  }

  lemma CallsGrow(s: Path, r: Path, caller: nat)
    requires r.now == s.now && r.requests == s.requests && r.receipts == s.receipts && caller in r.flights.calls
    requires r.flights.calls == s.flights.calls[caller := r.flights.calls[caller]]
    requires caller in s.flights.calls ==> s.flights.calls[caller].Awaiting?
    ensures Grows(s, r)
  {
  }

  lemma OneMoreCall(calls: map<nat, Inflight.Call>, requests: map<nat, Request>, c: nat, call: Inflight.Call)
    requires CallsRecorded(calls, requests) && c in requests && (call.Refused? || call.key == KeyOf(requests[c]))
    ensures CallsRecorded(calls[c := call], requests)
  {
    hide KeyOf;
  }

  lemma MoreRuns(runs: seq<Inflight.FactoryRun>, more: seq<Inflight.FactoryRun>, receipts: map<nat, Receipt>, now: int)
    requires RunsRecorded(runs, receipts, now) && |runs| <= |more|
    requires forall p :: 0 <= p < |more| ==> if p < |runs| then more[p] == runs[p] else more[p].phase.Running?
    ensures RunsRecorded(more, receipts, now)
  {
    hide OutcomeOf;
  }

  /** Beginning a call adds the caller, and at most one new run at the end. */
  lemma BeginShape(f: Inflight.Flights, caller: nat, key: Digest, now: int, start: Inflight.Start)
    requires caller !in f.calls
    ensures var g := Inflight.Next(f, Inflight.Begin(caller, key, now, start));
            && caller in g.calls && g.calls == f.calls[caller := g.calls[caller]]
            && (g.calls[caller].Refused? || g.calls[caller].key == key)
            && |f.runs| <= |g.runs|
            && (forall p :: 0 <= p < |g.runs| ==>
                  if p < |f.runs| then g.runs[p] == f.runs[p] else g.runs[p].phase.Running?)
  {
  }

  lemma UpstreamStep(s: Path, maxEntryBytes: nat, run: nat, reply: Reply)
    requires Recorded(s) && Enabled(s, Upstream(run, reply))
    ensures var r := Next(s, maxEntryBytes, Upstream(run, reply)); Grows(s, r) && Recorded(r)
  {
    hide KeyOf, OutcomeOf, CallsRecorded;
    assert RunRecorded(s.flights.runs[run].phase, s.receipts, run, s.now);
  }

  lemma CleanupStep(s: Path, maxEntryBytes: nat, run: nat)
    requires Recorded(s) && Enabled(s, Cleanup(run))
    ensures var r := Next(s, maxEntryBytes, Cleanup(run)); Grows(s, r) && Recorded(r)
  {
    hide KeyOf, OutcomeOf, CallsRecorded;
  }

  lemma DeliverStep(s: Path, maxEntryBytes: nat, caller: nat)
    requires Recorded(s) && Enabled(s, Deliver(caller))
    ensures var r := Next(s, maxEntryBytes, Deliver(caller)); Grows(s, r) && Recorded(r)
  {
    assert caller in s.requests && s.flights.calls[caller].key == KeyOf(s.requests[caller]);
    var r := Next(s, maxEntryBytes, Deliver(caller));
    OneMoreCall(s.flights.calls, s.requests, caller, r.flights.calls[caller]);
    hide KeyOf, OutcomeOf, CallsRecorded, RunsRecorded, Grows;
    CallsGrow(s, r, caller);
  }

  lemma LookUpJustified(s: Path, caller: nat, request: Request)
    requires StoreJustified(s) && AnswersJustified(s) && caller !in s.requests
    requires Grows(s, AfterLookUp(s, caller, request))
    ensures StoreJustified(AfterLookUp(s, caller, request)) && AnswersJustified(AfterLookUp(s, caller, request))
  {
    var r, key := AfterLookUp(s, caller, request), KeyOf(request);
    hide Grows, Written, KeyOf;
    StoreKept(s, r);
    if Found(s.store, key, s.now).Some? {
      assert Written(r, key, s.store[key].result, s.store[key].createdAt, s.store[key].ttl);
    }
    AnswersKept(s, r);
  }

  lemma FinishJustified(s: Path, maxEntryBytes: nat, caller: nat, bytes: nat, evicted: set<Digest>)
    requires Sound(s) && Enabled(s, Finish(caller, bytes, evicted))
    requires Grows(s, AfterFinish(s, maxEntryBytes, caller, bytes, evicted))
    ensures var r := AfterFinish(s, maxEntryBytes, caller, bytes, evicted); StoreJustified(r) && AnswersJustified(r)
  {
    hide Grows, KeyOf, Recorded, Inflight.Good, IsToolError, AnswersJustified, StoreJustified, Written;
    var r := AfterFinish(s, maxEntryBytes, caller, bytes, evicted);
    var call := s.flights.calls[caller];
    assert r.answers == s.answers[caller := r.answers[caller]] && AnswerJustified(r, caller, r.answers[caller]);
    OneMoreAnswer(s, r, caller);
    if call.Got? && call.outcome.Value? && !IsToolError(call.outcome.result) {
      FinisherWrote(s, r, caller);
    }
    hide AnswerJustified;
    StoreKept(s, r);
  }

  lemma OneMoreAnswer(s: Path, r: Path, caller: nat)
    requires Grows(s, r) && AnswersJustified(s) && caller in r.answers
    requires r.answers == s.answers[caller := r.answers[caller]] && AnswerJustified(r, caller, r.answers[caller])
    ensures AnswersJustified(r)
  {
    hide Grows, AnswerJustified;
    AnswersKept(s, r);
  }

  lemma FinisherWrote(s: Path, r: Path, caller: nat)
    requires Recorded(s) && Inflight.Good(s.flights) && caller in s.requests && caller in s.flights.calls
    requires r.flights == s.flights && r.requests == s.requests && r.receipts == s.receipts && r.now == s.now
    requires var call := s.flights.calls[caller];
             call.Got? && call.outcome.Value? && !IsToolError(call.outcome.result)
    ensures Written(r, KeyOf(s.requests[caller]), s.flights.calls[caller].outcome.result, s.now, s.requests[caller].ttl)
  {
    hide KeyOf, IsToolError, OutcomeOf, Inflight.MapMatches, Inflight.Counted;
    var call := s.flights.calls[caller];
    assert Inflight.CallFits(call, caller, s.flights.runs);
    assert RunRecorded(s.flights.runs[call.promise].phase, s.receipts, call.promise, s.now);
    assert WroteIt(r, caller, call.key, call.outcome.result, s.now, s.requests[caller].ttl);
  }

  lemma NextSound(s: Path, maxEntryBytes: nat, e: Event)
    requires Sound(s) && Enabled(s, e)
    ensures Sound(Next(s, maxEntryBytes, e))
  {
    hide Recorded, StoreJustified, AnswersJustified, Grows, KeyOf, OutcomeOf, Found, AfterFinish, Inflight.Next,
         Inflight.MapMatches, Inflight.CallsFit, Inflight.Counted;
    var r := Next(s, maxEntryBytes, e);
    match e
    case LookUp(caller, request) => {
      LocalStep(s, r);
      LookUpJustified(s, caller, request);
    }
    case Limit(caller) => {
      LocalStep(s, r);
      NothingStored(s, r, caller);
    }
    case Finish(caller, bytes, evicted) => {
      FinishKeeps(s, maxEntryBytes, caller, bytes, evicted);
      LocalStep(s, r);
      FinishJustified(s, maxEntryBytes, caller, bytes, evicted);
    }
    case Forget(_) => {
      LocalStep(s, r);
      NothingNew(s, r);
    }
    case Tick(_) => {
      LocalStep(s, r);
      NothingNew(s, r);
    }
    case Call(caller, start) => {
      CallStep(s, maxEntryBytes, caller, start);
      NothingNew(s, r);
      Inflight.NextGood(s.flights, Inflight.Begin(caller, KeyOf(s.requests[caller]), s.now, start));
    }
    case Upstream(run, reply) => {
      UpstreamStep(s, maxEntryBytes, run, reply);
      NothingNew(s, r);
      Inflight.NextGood(s.flights, Inflight.Settle(run, OutcomeOf(reply)));
    }
    case Cleanup(run) => {
      CleanupStep(s, maxEntryBytes, run);
      NothingNew(s, r);
      Inflight.NextGood(s.flights, Inflight.Cleanup(run));
    }
    case Deliver(caller) => {
      DeliverStep(s, maxEntryBytes, caller);
      NothingNew(s, r);
      Inflight.NextGood(s.flights, Inflight.Deliver(caller));
    }
  }

  lemma FinishKeeps(s: Path, maxEntryBytes: nat, caller: nat, bytes: nat, evicted: set<Digest>)
    requires Enabled(s, Finish(caller, bytes, evicted))
    ensures var r := AfterFinish(s, maxEntryBytes, caller, bytes, evicted);
            r.flights == s.flights && r.receipts == s.receipts && r.now == s.now && r.requests == s.requests
  {
    hide KeyOf, IsToolError;
  }

  lemma NothingNew(s: Path, r: Path)
    requires Grows(s, r) && StoreJustified(s) && AnswersJustified(s) && r.answers == s.answers
    requires forall key :: key in r.store ==> key in s.store && r.store[key] == s.store[key]
    ensures StoreJustified(r) && AnswersJustified(r)
  {
    hide Grows, AnswerJustified, Written;
    StoreKept(s, r);
    AnswersKept(s, r);
  }

  lemma NothingStored(s: Path, r: Path, caller: nat)
    requires Grows(s, r) && StoreJustified(s) && AnswersJustified(s) && r.store == s.store
    requires r.answers == s.answers[caller := RateLimited] && caller in s.requests
    ensures StoreJustified(r) && AnswersJustified(r)
  {
    assert caller in r.requests;
    hide Grows, Written;
    StoreKept(s, r);
    AnswersKept(s, r);
  }

  lemma {:induction false} AlwaysSound(trace: Trace, maxEntryBytes: nat)
    requires Legal(trace, maxEntryBytes)
    ensures Sound(Reached(trace, maxEntryBytes))
  {
    match trace
    case Idle(_) => assert Inflight.Leaders(map[]) == {};
    case After(past, e) => {
      AlwaysSound(past, maxEntryBytes);
      hide Sound, Next, Enabled;
      NextSound(Reached(past, maxEntryBytes), maxEntryBytes, e);
    }
  }

  // ---------------------------------------------------------------------------------------------
  // What clients get

  /** `result` is from upstream's reply to the call of a client with the same cache identity, no later than `latest`. */
  predicate GivenByUpstream(s: Path, request: Request, result: Json, latest: int, run: nat) {
    && run < |s.flights.runs| && s.flights.runs[run].leader in s.requests
    && SameIdentity(request.identity, s.requests[s.flights.runs[run].leader].identity)
    && run in s.receipts && s.receipts[run].at <= latest && Gave(s.receipts[run].reply, result)
  }

  predicate Answered(answer: Answer) {
    answer.Hit? || answer.Miss? || answer.SkipError?
  }

  lemma CallerWasGiven(s: Path, client: nat, request: Request, result: Json)
    requires Sound(s) && client in s.flights.calls && s.flights.calls[client].Got?
    requires s.flights.calls[client].outcome == Inflight.Value(result) && s.flights.calls[client].key == KeyOf(request)
    ensures GivenByUpstream(s, request, result, s.now, s.flights.calls[client].promise)
    ensures GivenByUpstream(s, request, result, s.receipts[s.flights.calls[client].promise].at,
                            s.flights.calls[client].promise)
  {
    hide StoreJustified, AnswersJustified, Inflight.MapMatches, Inflight.Counted, KeyOf, OutcomeOf, Gave, SameIdentity;
    var run := s.flights.calls[client].promise;
    assert Inflight.CallFits(s.flights.calls[client], client, s.flights.runs);
    var leader := s.flights.runs[run].leader;
    assert Inflight.CallFits(s.flights.calls[leader], leader, s.flights.runs);
    assert RunRecorded(s.flights.runs[run].phase, s.receipts, run, s.now);
    SameKeySameIdentity(request, s.requests[leader]);
    GaveExactly(s.receipts[run].reply, result);
  }

  lemma SameKeySameIdentity(a: Request, b: Request)
    requires KeyOf(a) == KeyOf(b)
    ensures SameIdentity(a.identity, b.identity)
  {
    CacheKeyIdentity(a.identity, b.identity);
    hide GenerateCacheKey, SameIdentity;
  }

  /** Every successful answer, hit, miss or coalesced, is a result that upstream gave for the same cache identity. */
  lemma AnswersComeFromUpstream(trace: Trace, maxEntryBytes: nat, client: nat)
    requires Legal(trace, maxEntryBytes)
    requires client in Reached(trace, maxEntryBytes).answers && Answered(Reached(trace, maxEntryBytes).answers[client])
    ensures var s := Reached(trace, maxEntryBytes);
            && client in s.requests
            && exists run :: GivenByUpstream(s, s.requests[client], s.answers[client].result, s.now, run)
  {
    AlwaysSound(trace, maxEntryBytes);
    var s := Reached(trace, maxEntryBytes);
    var answer := s.answers[client];
    assert AnswerJustified(s, client, answer);
    hide Reached, KeyOf, OutcomeOf, Gave, SameIdentity, Inflight.Good, IsToolError;
    hide StoreJustified, AnswersJustified, GivenByUpstream;
    var request := s.requests[client];
    if answer.Hit? {
      var writer :| WroteIt(s, writer, KeyOf(request), answer.result, answer.createdAt, answer.ttl);
      CallerWasGiven(s, writer, request, answer.result);
    } else {
      CallerWasGiven(s, client, request, answer.result);
    }
  }

  predicate GivenForEqualArgs(s: Path, request: Request, result: Json, latest: int, run: nat) {
    && GivenByUpstream(s, request, result, latest, run)
    && ExactIdentity(request.identity, s.requests[s.flights.runs[run].leader].identity)
  }

  /** With no `__proto__` key in any request, the arguments are equal up to key order. */
  lemma AnswersForEqualArgs(trace: Trace, maxEntryBytes: nat, client: nat)
    requires Legal(trace, maxEntryBytes)
    requires client in Reached(trace, maxEntryBytes).answers && Answered(Reached(trace, maxEntryBytes).answers[client])
    requires AllProtoFree(Reached(trace, maxEntryBytes))
    ensures var s := Reached(trace, maxEntryBytes);
            && client in s.requests
            && exists run :: GivenForEqualArgs(s, s.requests[client], s.answers[client].result, s.now, run)
  {
    AnswersComeFromUpstream(trace, maxEntryBytes, client);
    var s := Reached(trace, maxEntryBytes);
    hide Reached, GivenByUpstream, AllProtoFree;
    var run :| GivenByUpstream(s, s.requests[client], s.answers[client].result, s.now, run);
    GivenExactly(s, client, s.answers[client].result, s.now, run);
  }

  predicate AllProtoFree(s: Path) {
    forall c :: c in s.requests ==> ProtoFree(s.requests[c].identity)
  }

  lemma GivenExactly(s: Path, client: nat, result: Json, latest: int, run: nat)
    requires client in s.requests && AllProtoFree(s) && GivenByUpstream(s, s.requests[client], result, latest, run)
    ensures GivenForEqualArgs(s, s.requests[client], result, latest, run)
  {
    hide Gave, SameIdentity, ExactIdentity, ProtoFree;
    IdentityUpToKeyOrder(s.requests[client].identity, s.requests[s.flights.runs[run].leader].identity);
  }

  /** A client with this request is answered, in a run in which no other request has a `__proto__` key. */
  predicate AnsweredAmongPlain(trace: Trace, maxEntryBytes: nat, client: nat, request: Request) {
    && Legal(trace, maxEntryBytes)
    && var s := Reached(trace, maxEntryBytes);
       && client in s.requests && s.requests[client] == request
       && client in s.answers && Answered(s.answers[client])
       && forall c :: c in s.requests && s.requests[c] != request ==> ProtoFree(s.requests[c].identity)
  }

  ghost predicate GivenEqually(s: Path, client: nat)
    requires client in s.requests && client in s.answers && Answered(s.answers[client])
  {
    exists run :: GivenForEqualArgs(s, s.requests[client], s.answers[client].result, s.now, run)
  }

  /** In every run the request is answered with what upstream gave for the same arguments up to key order. */
  ghost predicate AnsweredForItself(request: Request) {
    forall trace, maxEntryBytes, client :: AnsweredAmongPlain(trace, maxEntryBytes, client, request) ==>
      GivenEqually(Reached(trace, maxEntryBytes), client)
  }

  /** That holds for the requests without `__proto__` keys and for no others. */
  lemma AnswersNeedNoProto(request: Request)
    ensures AnsweredForItself(request) <==> ProtoFree(request.identity)
  {
    hide ProtoFree, Legal, Reached, GivenForEqualArgs;
    if ProtoFree(request.identity) {
      forall trace, maxEntryBytes, client | AnsweredAmongPlain(trace, maxEntryBytes, client, request)
        ensures GivenEqually(Reached(trace, maxEntryBytes), client)
      {
        AnswersForEqualArgs(trace, maxEntryBytes, client);
      }
    } else {
      var trace := ServedByStripped(request, 0);
    }
  }

  lemma Step(trace: Trace, maxEntryBytes: nat, e: Event)
    requires Legal(trace, maxEntryBytes) && Enabled(Reached(trace, maxEntryBytes), e)
    ensures Legal(After(trace, e), maxEntryBytes)
    ensures Reached(After(trace, e), maxEntryBytes) == Next(Reached(trace, maxEntryBytes), maxEntryBytes, e)
  {
    hide Next, Enabled;
  }

  /** One call that upstream answers, streamed, and that is cached. */
  function Asked(request: Request): Trace {
    After(After(Idle(0), LookUp(0, request)), Call(0, Inflight.Returns))
  }

  function Returned(request: Request): Trace {
    After(After(After(Asked(request), Upstream(0, Streamed)), Cleanup(0)), Deliver(0))
  }

  function Served(request: Request): Trace {
    After(Returned(request), Finish(0, 0, {}))
  }

  /** The path with that one call on it, in the given phase. */
  function OneCall(request: Request, inflight: map<Digest, Inflight.InflightEntry>, phase: Inflight.Phase,
                   call: Inflight.Call, receipts: map<nat, Receipt>): Path
  {
    Path(0, map[], Inflight.Flights(inflight, [Inflight.FactoryRun(KeyOf(request), 0, phase)], map[0 := call]),
         map[0 := request], receipts, map[])
  }

  function AfterReturned(request: Request): Path {
    var key, outcome := KeyOf(request), Inflight.Value(Object([]));
    OneCall(request, map[], Inflight.Cleaned(outcome), Inflight.Got(key, 0, false, outcome),
            map[0 := Receipt(Streamed, 0)])
  }

  function AfterServed(request: Request): Path {
    AfterReturned(request).(
      store := map[KeyOf(request) := NewEntry(request, Object([]), 0, 0)], answers := map[0 := Miss(Object([]))])
  }

  lemma AskedReaches(request: Request, maxEntryBytes: nat)
    ensures Legal(Asked(request), maxEntryBytes)
    ensures var key := KeyOf(request);
            Reached(Asked(request), maxEntryBytes)
            == OneCall(request, map[key := Inflight.InflightEntry(0, 0, 0)], Inflight.Running,
                       Inflight.Awaiting(key, 0, false), map[])
  {
    hide Legal, Reached, KeyOf;
    StartsIdle(maxEntryBytes);
    var start := Reached(Idle(0), maxEntryBytes);
    Step(Idle(0), maxEntryBytes, LookUp(0, request));
    assert AfterLookUp(start, 0, request) == start.(requests := map[0 := request]) by {
      assert start.store - {KeyOf(request)} == map[];
    }
    Step(After(Idle(0), LookUp(0, request)), maxEntryBytes, Call(0, Inflight.Returns));
  }

  lemma ReturnedReaches(request: Request, maxEntryBytes: nat)
    ensures Legal(Returned(request), maxEntryBytes)
    ensures Reached(Returned(request), maxEntryBytes) == AfterReturned(request)
  {
    hide Legal, Reached, KeyOf;
    AskedReaches(request, maxEntryBytes);
    var asked, key := Asked(request), KeyOf(request);
    Step(asked, maxEntryBytes, Upstream(0, Streamed));
    var replied := After(asked, Upstream(0, Streamed));
    Step(replied, maxEntryBytes, Cleanup(0));
    assert map[key := Inflight.InflightEntry(0, 0, 0)] - {key} == map[];
    Step(After(replied, Cleanup(0)), maxEntryBytes, Deliver(0));
  }

  lemma ServedReaches(request: Request, maxEntryBytes: nat)
    ensures Legal(Served(request), maxEntryBytes)
    ensures Reached(Served(request), maxEntryBytes) == AfterServed(request)
  {
    hide Legal, Reached, KeyOf;
    ReturnedReaches(request, maxEntryBytes);
    Step(Returned(request), maxEntryBytes, Finish(0, 0, {}));
    assert IsToolError(Object([])) == false;
    assert AfterReturned(request).store - {} == map[];
  }

  lemma StartsIdle(maxEntryBytes: nat)
    ensures Legal(Idle(0), maxEntryBytes)
    ensures Reached(Idle(0), maxEntryBytes) == Path(0, map[], Inflight.Flights(map[], [], map[]), map[], map[], map[])
  {
  }

  /** The request with the same cache key that has lost its `__proto__` keys. */
  function StrippedRequest(r: Request): Request {
    StrippedSharesKey(r.identity);
    Request(Stripped(r.identity), 1)
  }

  lemma StrippedRequestServes(request: Request)
    ensures var plain := StrippedRequest(request);
            && KeyOf(plain) == KeyOf(request) && ProtoFree(plain.identity) && plain.ttl == 1
            && (!ProtoFree(request.identity) ==> !ExactIdentity(request.identity, plain.identity))
  {
    hide ProtoFree, ExactIdentity, GenerateCacheKey;
    StrippedSharesKey(request.identity);
    assert StrippedRequest(request).identity == Stripped(request.identity);
  }

  lemma SecondHits(plain: Request, request: Request, maxEntryBytes: nat)
    requires KeyOf(plain) == KeyOf(request) && plain.ttl >= 0
    ensures var trace := After(Served(plain), LookUp(1, request));
            && Legal(trace, maxEntryBytes)
            && Reached(trace, maxEntryBytes)
               == AfterServed(plain).(requests := map[0 := plain, 1 := request],
                                      answers := map[0 := Miss(Object([])), 1 := Hit(Object([]), 0, plain.ttl, 0)])
  {
    hide Legal, Reached, KeyOf;
    ServedReaches(plain, maxEntryBytes);
    Step(Served(plain), maxEntryBytes, LookUp(1, request));
  }

  lemma OnlyTheOther(s: Path, plain: Request, request: Request)
    requires |s.flights.runs| == 1 && s.flights.runs[0].leader == 0 && s.requests == map[0 := plain, 1 := request]
    requires !ExactIdentity(request.identity, plain.identity)
    requires 1 in s.answers && Answered(s.answers[1])
    ensures !GivenEqually(s, 1)
  {
    hide ExactIdentity, SameIdentity, Gave;
  }

  /** A request with a `__proto__` key hits the cache entry of another one that has lost it. */
  lemma ServedByStripped(request: Request, maxEntryBytes: nat) returns (trace: Trace)
    requires !ProtoFree(request.identity)
    ensures AnsweredAmongPlain(trace, maxEntryBytes, 1, request) && !GivenEqually(Reached(trace, maxEntryBytes), 1)
  {
    hide Legal, Reached, KeyOf, ProtoFree, ExactIdentity, GivenEqually, StrippedRequest;
    var plain := StrippedRequest(request);
    StrippedRequestServes(request);
    SecondHits(plain, request, maxEntryBytes);
    trace := After(Served(plain), LookUp(1, request));
    OnlyTheOther(Reached(trace, maxEntryBytes), plain, request);
  }

  /** `writer` stored under its own policy what it was given upstream for the same cache identity. */
  predicate StoredBy(s: Path, writer: nat, request: Request, hit: Answer)
    requires hit.Hit?
  {
    && writer in s.requests && SameIdentity(s.requests[writer].identity, request.identity)
    && hit.ttl == s.requests[writer].ttl
    && writer in s.flights.calls && s.flights.calls[writer].Got?
    && GivenByUpstream(s, request, hit.result, hit.createdAt, s.flights.calls[writer].promise)
  }

  /**
   A hit is never older than the time to live that the policy of the call that stored it gives, counted from
   when that call stored it, after upstream's reply.
   */
  lemma HitsAreFresh(trace: Trace, maxEntryBytes: nat, client: nat)
    requires Legal(trace, maxEntryBytes)
    requires client in Reached(trace, maxEntryBytes).answers && Reached(trace, maxEntryBytes).answers[client].Hit?
    ensures var s := Reached(trace, maxEntryBytes);
            var hit := s.answers[client];
            && client in s.requests
            && hit.at - hit.createdAt <= hit.ttl * 1000
            && (hit.result.Object? ==> Member([105, 115, 69, 114, 114, 111, 114], Boolean(true)) !in hit.result.members)
            && exists writer :: StoredBy(s, writer, s.requests[client], hit)
  {
    AlwaysSound(trace, maxEntryBytes);
    var s := Reached(trace, maxEntryBytes);
    var hit := s.answers[client];
    assert AnswerJustified(s, client, hit);
    hide Reached, KeyOf, OutcomeOf, Gave, SameIdentity, Inflight.Good, StoreJustified, AnswersJustified, IsToolError;
    var request := s.requests[client];
    var writer :| WroteIt(s, writer, KeyOf(request), hit.result, hit.createdAt, hit.ttl);
    CallerWasGiven(s, writer, request, hit.result);
    assert s.flights.calls[writer].key == KeyOf(s.requests[writer]);
    SameKeySameIdentity(s.requests[writer], request);
    assert StoredBy(s, writer, request, hit);
    FlagExactly(hit.result);
  }

  /** No JSON-RPC error, no exception and no tool error is ever cached. */
  lemma OnlySuccessIsCached(trace: Trace, maxEntryBytes: nat, key: Digest)
    requires Legal(trace, maxEntryBytes) && key in Reached(trace, maxEntryBytes).store
    ensures var s := Reached(trace, maxEntryBytes);
            && (s.store[key].result.Object? ==>
                  Member([105, 115, 69, 114, 114, 111, 114], Boolean(true)) !in s.store[key].result.members)
            && exists run :: run in s.receipts && Gave(s.receipts[run].reply, s.store[key].result)
  {
    AlwaysSound(trace, maxEntryBytes);
    var s := Reached(trace, maxEntryBytes);
    var entry := s.store[key];
    assert Written(s, key, entry.result, entry.createdAt, entry.ttl);
    hide Reached, KeyOf, OutcomeOf, Gave, SameIdentity, Inflight.Good, IsToolError;
    hide StoreJustified, AnswersJustified, Recorded;
    var writer :| WroteIt(s, writer, key, entry.result, entry.createdAt, entry.ttl);
    WriterHadReply(s, writer);
    FlagExactly(entry.result);
  }

  /** A tool error is a result object with the member `isError`, whatever its place, and the value true. */
  lemma FlagExactly(result: Json)
    ensures IsToolError(result)
            <==> result.Object? && Member([105, 115, 69, 114, 114, 111, 114], Boolean(true)) in result.members
  {
  }

  lemma WriterHadReply(s: Path, writer: nat)
    requires Recorded(s) && Inflight.Good(s.flights) && writer in s.flights.calls && s.flights.calls[writer].Got?
    ensures var call := s.flights.calls[writer];
            && call.promise in s.receipts && OutcomeOf(s.receipts[call.promise].reply) == call.outcome
            && (call.outcome.Value? ==> Gave(s.receipts[call.promise].reply, call.outcome.result))
  {
    hide KeyOf, OutcomeOf, Inflight.MapMatches, Inflight.Counted;
    var run := s.flights.calls[writer].promise;
    assert Inflight.CallFits(s.flights.calls[writer], writer, s.flights.runs);
    assert RunRecorded(s.flights.runs[run].phase, s.receipts, run, s.now);
    if s.flights.calls[writer].outcome.Value? {
      GaveExactly(s.receipts[run].reply, s.flights.calls[writer].outcome.result);
    }
  }

  /**
   What a client is told of a reply: an exception as it is, a JSON-RPC error with its code and message or else -32603
   and "Upstream error", and a result, an empty object when there is none, as a tool error or as a miss.
   */
  predicate TellsReply(reply: Reply, answer: Answer) {
    match reply
    case Thrown(failure) => answer == ErrorReply(failure)
    case Body(Some(e), _) =>
      && answer.ErrorReply? && answer.failure.RpcError?
      && answer.failure.code == (match e.code case Some(code) => code case None => -32603)
      && answer.failure.message
         == (match e.message
             case Some(message) => message
             case None => [85, 112, 115, 116, 114, 101, 97, 109, 32, 101, 114, 114, 111, 114])
    case _ =>
      && (answer.SkipError? || answer.Miss?) && Gave(reply, answer.result)
      && (answer.SkipError? <==>
            answer.result.Object? && Member([105, 115, 69, 114, 114, 111, 114], Boolean(true)) in answer.result.members)
  }

  lemma TellsExactly(reply: Reply, answer: Answer)
    requires match OutcomeOf(reply) {
               case Failed(error) => answer == ErrorReply(error)
               case Value(result) => answer == if IsToolError(result) then SkipError(result) else Miss(result)
             }
    ensures TellsReply(reply, answer)
  {
    if OutcomeOf(reply).Value? { GaveExactly(reply, OutcomeOf(reply).result); }
  }

  /** The client's own answer is what the reply to the run it waited for says, or the refusal of its call. */
  lemma AnswersTellReplies(trace: Trace, maxEntryBytes: nat, client: nat)
    requires Legal(trace, maxEntryBytes) && client in Reached(trace, maxEntryBytes).answers
    requires var answer := Reached(trace, maxEntryBytes).answers[client]; !answer.Hit? && !answer.RateLimited?
    ensures var s := Reached(trace, maxEntryBytes);
            && client in s.flights.calls
            && match s.flights.calls[client] {
                 case Refused(error) => s.answers[client] == ErrorReply(error)
                 case Got(_, run, _, _) => run in s.receipts && TellsReply(s.receipts[run].reply, s.answers[client])
                 case Awaiting(_, _, _) => false
               }
  {
    AlwaysSound(trace, maxEntryBytes);
    var s := Reached(trace, maxEntryBytes);
    assert AnswerJustified(s, client, s.answers[client]);
    hide Reached, KeyOf, OutcomeOf, Gave, Inflight.Good, IsToolError, TellsReply;
    hide StoreJustified, AnswersJustified, Recorded;
    if s.flights.calls[client].Got? {
      WriterHadReply(s, client);
      TellsExactly(s.receipts[s.flights.calls[client].promise].reply, s.answers[client]);
    }
  }

  /** What is stored under a key: whose call stored it, when, and for how long. */
  predicate StoredAs(entry: CacheEntry, request: Request, result: Json, now: int, bytes: nat) {
    && entry.result == result && entry.createdAt == now && entry.ttl == request.ttl && entry.bytes == bytes
    && entry.toolName == request.identity.toolName && entry.serverId == ServerId(request.identity.serverId)
  }

  /**
   The end of a call. A refused or failed call is answered with its error and a tool error as one that is not cached;
   every other result is a miss, and it is stored for the time that the policy of the call gives unless it is larger
   than the bound. No other answer changes, and no other entry except those the store evicts.
   */
  lemma FinishExactly(s: Path, maxEntryBytes: nat, caller: nat, bytes: nat, evicted: set<Digest>)
    requires Enabled(s, Finish(caller, bytes, evicted))
    ensures var r := Next(s, maxEntryBytes, Finish(caller, bytes, evicted));
            var call, request := s.flights.calls[caller], s.requests[caller];
            && caller in r.answers && r.answers == s.answers[caller := r.answers[caller]]
            && r.requests == s.requests && r.flights == s.flights && r.receipts == s.receipts && r.now == s.now
            && (call.Refused? ==> r.answers[caller] == ErrorReply(call.error) && r.store == s.store)
            && (call.Got? && call.outcome.Failed? ==>
                  r.answers[caller] == ErrorReply(call.outcome.error) && r.store == s.store)
            && (call.Got? && call.outcome.Value? ==>
                  var result := call.outcome.result;
                  if result.Object? && Member([105, 115, 69, 114, 114, 111, 114], Boolean(true)) in result.members then
                    r.answers[caller] == SkipError(result) && r.store == s.store
                  else
                    && r.answers[caller] == Miss(result)
                    && if bytes <= maxEntryBytes then
                         && KeyOf(request) in r.store
                         && StoredAs(r.store[KeyOf(request)], request, result, s.now, bytes)
                         && forall key :: key != KeyOf(request) ==>
                              && (key in r.store <==> key in s.store && key !in evicted)
                              && (key in r.store ==> r.store[key] == s.store[key])
                       else r.store == s.store)
  {
    hide KeyOf;
  }

  /** A lookup hits exactly an entry of its key within its time to live, and drops one that has outlived it. */
  lemma LookUpExactly(s: Path, maxEntryBytes: nat, caller: nat, request: Request)
    requires Enabled(s, LookUp(caller, request)) && caller !in s.answers
    ensures var r := Next(s, maxEntryBytes, LookUp(caller, request));
            var key := KeyOf(request);
            && r.requests == s.requests[caller := request] && r.now == s.now
            && r.flights == s.flights && r.receipts == s.receipts
            && (caller in r.answers <==>
                  key in s.store && s.now - s.store[key].createdAt <= s.store[key].ttl * 1000)
            && (if caller in r.answers then
                  && r.store == s.store
                  && r.answers
                     == s.answers[caller := Hit(s.store[key].result, s.store[key].createdAt, s.store[key].ttl, s.now)]
                else r.answers == s.answers && r.store == s.store - {key})
  {
    hide KeyOf;
  }

  // ---------------------------------------------------------------------------------------------
  // The code on this path, on the real store and the real tracker

  /** What `set` does to the entries of the store is a step of the machine, with at most one eviction. */
  lemma SetIsFinish(f: Flat, max: nat, key: Digest, entry: CacheEntry)
    ensures AfterSet(f, max, key, entry).entries == (f.entries - Evicted(f, max, key))[key := entry]
  {
  }

  class Pipeline {
    const cacheStore: CacheStore
    const tracker: Inflight.InflightTracker
    ghost var path: Path

    constructor (maxEntries: nat, maxEntryBytes: nat, ghost start: int)
      requires maxEntries >= 1
      ensures Valid() && path == Reached(Idle(start), maxEntryBytes) && cacheStore.maxEntryBytes == maxEntryBytes
    {
      cacheStore := new CacheStore(maxEntries, maxEntryBytes);
      tracker := new Inflight.InflightTracker();
      path := Reached(Idle(start), maxEntryBytes);
      new;
      AlwaysSound(Idle(start), maxEntryBytes);
    }

    ghost predicate Valid()
      reads this, cacheStore, cacheStore.cache, tracker
    {
      && cacheStore.Valid() && tracker.Valid() && Sound(path)
      && path.store == cacheStore.Contents().entries && path.flights == tracker.flights
    }

    /** Up to the cache hit or the miss. */
    method LookUpCall(caller: nat, request: Request, now: int) returns (answer: Option<Answer>)
      requires Valid() && now == path.now && caller !in path.requests
      modifies this, cacheStore, cacheStore.cache
      ensures Valid() && Steps(old(path), cacheStore.maxEntryBytes, LookUp(caller, request), path)
      ensures answer == if caller in path.answers then Some(path.answers[caller]) else None
    {
      LookUpShape(path, cacheStore.Contents(), cacheStore.maxEntryBytes, caller, request);
      path := Next(path, cacheStore.maxEntryBytes, LookUp(caller, request));
      var cacheKey := KeyOf(request);
      hide Sound, Steps, Listings, PlainServers, Consistent, Fits, Inflight.Good, Next, Found, AfterGet;
      var cachedEntry := cacheStore.Get(cacheKey, now);
      if cachedEntry.Some? {
        answer := Some(Hit(cachedEntry.value.result, cachedEntry.value.createdAt, cachedEntry.value.ttl, now));
      } else {
        answer := None;
      }
    }

    /** The call to the tracker after a miss. */
    method CallUpstream(caller: nat, request: Request, now: int, start: Inflight.Start,
                        promise: nat) returns (call: Inflight.Call)
      requires Valid() && now == path.now && Missed(path, caller) && path.requests[caller] == request
      requires promise == |path.flights.runs|
      modifies this, tracker
      ensures Valid() && Steps(old(path), cacheStore.maxEntryBytes, Call(caller, start), path)
      ensures caller in path.flights.calls && call == path.flights.calls[caller]
    {
      hide Sound, KeyOf, Listings, PlainServers, Inflight.Good, Inflight.Next, Consistent, Fits, Steps, Next;
      CallShape(path, cacheStore.maxEntryBytes, caller, request, start);
      path := Next(path, cacheStore.maxEntryBytes, Call(caller, start));
      call := tracker.Deduplicate(caller, KeyOf(request), now, start, promise);
    }

    /** From the end of the await to the answer: an error reply, a tool error, or a result that is cached. */
    method FinishCall(caller: nat, request: Request, call: Inflight.Call, now: int, bytes: nat)
      returns (answer: Answer, ghost evicted: set<Digest>)
      requires Valid() && now == path.now && Finishing(path, caller, request, call)
      requires AT !in request.identity.serverId
      modifies this, cacheStore, cacheStore.cache
      ensures Valid() && Steps(old(path), cacheStore.maxEntryBytes, Finish(caller, bytes, evicted), path)
      ensures caller in path.answers && answer == path.answers[caller]
      ensures call.Got? && call.outcome.Value? ==>
                var result := call.outcome.result;
                answer == if result.Object?
                             && Member([105, 115, 69, 114, 114, 111, 114], Boolean(true)) in result.members
                          then SkipError(result) else Miss(result)
      ensures answer.Miss? && bytes <= cacheStore.maxEntryBytes ==>
                && KeyOf(request) in cacheStore.Contents().entries
                && StoredAs(cacheStore.Contents().entries[KeyOf(request)], request, answer.result, now, bytes)
      ensures !answer.Miss? ==> cacheStore.Contents().entries == old(cacheStore.Contents().entries)
    {
      hide Sound, Listings, PlainServers, Consistent, Fits, Inflight.Good, AfterSet, Evicted, IsToolError, KeyOf;
      evicted := Evicted(cacheStore.Contents(), cacheStore.cache.max, KeyOf(request));
      FinishShape(path, cacheStore.Contents(), cacheStore.cache.max, cacheStore.maxEntryBytes, caller, request, call,
                  bytes);
      FinishExactly(path, cacheStore.maxEntryBytes, caller, bytes, evicted);
      path := Next(path, cacheStore.maxEntryBytes, Finish(caller, bytes, evicted));
      var cacheKey := KeyOf(request);
      hide Steps, Next, Finishing, NewEntry, StoredAs;
      if call.Refused? {
        return ErrorReply(call.error), evicted;
      }
      if call.outcome.Failed? {
        return ErrorReply(call.outcome.error), evicted;
      }
      var toolResult := call.outcome.result;
      if IsToolError(toolResult) {
        cacheStore.RecordSkip();
        return SkipError(toolResult), evicted;
      }
      cacheStore.Set(cacheKey, NewEntry(request, toolResult, now, bytes));
      answer := Miss(toolResult);
    }
  }

  predicate Steps(s: Path, maxEntryBytes: nat, e: Event, r: Path) {
    Enabled(s, e) && r == Next(s, maxEntryBytes, e)
  }

  predicate Finishing(s: Path, caller: nat, request: Request, call: Inflight.Call) {
    && caller in s.requests && s.requests[caller] == request && caller !in s.answers
    && caller in s.flights.calls && s.flights.calls[caller] == call && !call.Awaiting?
  }

  lemma CallShape(s: Path, maxEntryBytes: nat, caller: nat, request: Request, start: Inflight.Start)
    requires Sound(s) && Missed(s, caller) && s.requests[caller] == request
    ensures var e := Call(caller, start);
            && Enabled(s, e)
            && var r := Next(s, maxEntryBytes, e);
               && Sound(r) && Steps(s, maxEntryBytes, e, r) && r.store == s.store
               && r.flights == Inflight.Next(s.flights, Inflight.Begin(caller, KeyOf(request), s.now, start))
  {
    NextSound(s, maxEntryBytes, Call(caller, start));
    hide Sound, KeyOf, Inflight.Next;
  }

  lemma LookUpShape(s: Path, f: Flat, maxEntryBytes: nat, caller: nat, request: Request)
    requires Sound(s) && f.entries == s.store && caller !in s.requests
    ensures Enabled(s, LookUp(caller, request))
    ensures var r, key := Next(s, maxEntryBytes, LookUp(caller, request)), KeyOf(request);
            && Sound(r) && Steps(s, maxEntryBytes, LookUp(caller, request), r)
            && r.flights == s.flights && r.store == AfterGet(f, key, s.now).entries
            && match Found(f.entries, key, s.now) {
                 case Some(e) => caller in r.answers && r.answers[caller] == Hit(e.result, e.createdAt, e.ttl, s.now)
                 case None => caller !in r.answers
               }
  {
    AnsweredAreKnown(s);
    NextSound(s, maxEntryBytes, LookUp(caller, request));
    LookUpStore(f, KeyOf(request), s.now);
    hide Sound, KeyOf, AfterGet;
  }

  lemma LookUpStore(f: Flat, key: Digest, now: int)
    ensures AfterGet(f, key, now).entries == if Found(f.entries, key, now).Some? then f.entries else f.entries - {key}
  {
    hide Minus;
    if key !in f.entries { assert f.entries - {key} == f.entries; }
  }

  function Evicted(f: Flat, max: nat, key: Digest): set<Digest> {
    if key in f.entries then {key} else if |f.recency| >= max && f.recency != [] then {f.recency[0]} else {}
  }

  /** What is stored and what is answered when a call comes back. */
  predicate FinishedWith(s: Path, r: Path, f: Flat, max: nat, maxEntryBytes: nat, caller: nat, request: Request,
                         call: Inflight.Call, bytes: nat)
    requires !call.Awaiting?
  {
    && caller in r.answers
    && if call.Refused? then r.store == s.store && r.answers[caller] == ErrorReply(call.error)
       else if call.outcome.Failed? then r.store == s.store && r.answers[caller] == ErrorReply(call.outcome.error)
       else if IsToolError(call.outcome.result) then
         r.store == s.store && r.answers[caller] == SkipError(call.outcome.result)
       else
         && r.answers[caller] == Miss(call.outcome.result)
         && r.store == if bytes > maxEntryBytes then s.store
                       else AfterSet(f, max, KeyOf(request),
                                     NewEntry(request, call.outcome.result, s.now, bytes)).entries
  }

  lemma FinishStore(s: Path, f: Flat, max: nat, maxEntryBytes: nat, caller: nat, request: Request, call: Inflight.Call,
                    bytes: nat)
    requires f.entries == s.store && Finishing(s, caller, request, call)
    ensures var evicted := Evicted(f, max, KeyOf(request));
            && Enabled(s, Finish(caller, bytes, evicted))
            && FinishedWith(s, AfterFinish(s, maxEntryBytes, caller, bytes, evicted), f, max, maxEntryBytes, caller,
                            request, call, bytes)
  {
    hide KeyOf, AfterSet, IsToolError, Evicted, NewEntry;
    if call.Got? && call.outcome.Value? {
      SetIsFinish(f, max, KeyOf(request), NewEntry(request, call.outcome.result, s.now, bytes));
    }
  }

  lemma FinishShape(s: Path, f: Flat, max: nat, maxEntryBytes: nat, caller: nat, request: Request, call: Inflight.Call,
                    bytes: nat)
    requires Sound(s) && f.entries == s.store && Finishing(s, caller, request, call)
    ensures var e := Finish(caller, bytes, Evicted(f, max, KeyOf(request)));
            && Enabled(s, e)
            && var r := Next(s, maxEntryBytes, e);
               && Sound(r) && Steps(s, maxEntryBytes, e, r) && r.flights == s.flights
               && FinishedWith(s, r, f, max, maxEntryBytes, caller, request, call, bytes)
  {
    hide *;
    var evicted := Evicted(f, max, KeyOf(request));
    FinishStore(s, f, max, maxEntryBytes, caller, request, call, bytes);
    FinishKeeps(s, maxEntryBytes, caller, bytes, evicted);
    NextIsFinish(s, maxEntryBytes, caller, bytes, evicted);
    NextSound(s, maxEntryBytes, Finish(caller, bytes, evicted));
  }

  lemma NextIsFinish(s: Path, maxEntryBytes: nat, caller: nat, bytes: nat, evicted: set<Digest>)
    requires Enabled(s, Finish(caller, bytes, evicted))
    ensures var e := Finish(caller, bytes, evicted);
            && Next(s, maxEntryBytes, e) == AfterFinish(s, maxEntryBytes, caller, bytes, evicted)
            && Steps(s, maxEntryBytes, e, Next(s, maxEntryBytes, e))
  {
    hide AfterFinish;
  }

  /** Only known callers have answers. */
  lemma AnsweredAreKnown(s: Path)
    requires Sound(s)
    ensures forall c :: c in s.answers ==> c in s.requests
  {
    hide Inflight.Good, StoreJustified, KeyOf, Written, RunsRecorded;
    forall c | c in s.answers ensures c in s.requests {
      assert AnswerJustified(s, c, s.answers[c]);
    }
  }
}
