/**
 Requests of the stdio client that wait for a reply (src/proxy/stdio-mcp-client.ts:164-208, 367-375, 417-455):
 a map from JSON-RPC ids to requests, one timer per request, and writes that may fail late.
 */
module PendingRequests {
  import opened Wrappers
  import opened JsonText

  datatype RequestId = NumberId(value: real) | StringId(text: Text)

  datatype Outcome = Resolved(body: Json) | TimedOut | WriteFailed | Rejected

  /**
   Requests are numbered as they are sent; `ids` remembers the id of each, `outcomes` how its promise was
   settled, `timers` whose timers run and `writing` whose messages are still being written.
   */
  datatype Client = Client(
    pending: map<RequestId, nat>, timers: set<nat>, outcomes: map<nat, Outcome>,
    ids: map<nat, RequestId>, writing: set<nat>, nextId: nat)

  const START := Client(map[], {}, map[], map[], {}, 1)

  datatype Event =
    | Send(request: nat, rawId: Option<RequestId>)
    | WriteDone(request: nat)
    | WriteFails(request: nat)
    | TimerFires(request: nat)
    | Reply(id: RequestId, body: Json)
    | RejectAll

  predicate Enabled(s: Client, e: Event) {
    match e
    case Send(request, _) => request !in s.ids
    case WriteDone(request) => request in s.writing && request in s.ids
    case WriteFails(request) => request in s.writing && request in s.ids
    case TimerFires(request) => request in s.timers && request in s.ids
    case Reply(_, _) => true
    case RejectAll => true
  }

  /** A promise is settled once; later attempts have no effect. */
  function Settle(outcomes: map<nat, Outcome>, request: nat, outcome: Outcome): map<nat, Outcome> {
    if request in outcomes then outcomes else outcomes[request := outcome]
  }

  function IdToUse(s: Client, rawId: Option<RequestId>): RequestId {
    if rawId.Some? then rawId.value else NumberId(s.nextId as real)
  }

  function AfterSend(s: Client, request: nat, rawId: Option<RequestId>): Client {
    var id := IdToUse(s, rawId);
    s.(pending := s.pending[id := request], timers := s.timers + {request}, ids := s.ids[request := id],
       writing := s.writing + {request}, nextId := if rawId.Some? then s.nextId else s.nextId + 1)
  }

  /** Both the timer and a failed write delete whatever is pending under the request's id. */
  function GiveUp(s: Client, request: nat, outcome: Outcome): Client
    requires request in s.ids
  {
    s.(pending := s.pending - {s.ids[request]}, timers := s.timers - {request},
       outcomes := Settle(s.outcomes, request, outcome))
  }

  function AfterReply(s: Client, id: RequestId, body: Json): Client {
    if id !in s.pending then s
    else s.(pending := s.pending - {id}, timers := s.timers - {s.pending[id]},
            outcomes := Settle(s.outcomes, s.pending[id], Resolved(body)))
  }

  function Held(s: Client, some: set<RequestId>): set<nat> {
    set id | id in some && id in s.pending :: s.pending[id]
  }

  function RejectSome(s: Client, some: set<RequestId>): Client {
    s.(pending := s.pending - some, timers := s.timers - Held(s, some),
       outcomes := map r | r in s.outcomes.Keys + Held(s, some) :: if r in s.outcomes then s.outcomes[r] else Rejected)
  }

  function Next(s: Client, e: Event): Client
    requires Enabled(s, e)
  {
    match e
    case Send(request, rawId) => AfterSend(s, request, rawId)
    case WriteDone(request) => s.(writing := s.writing - {request})
    case WriteFails(request) => GiveUp(s, request, WriteFailed).(writing := s.writing - {request})
    case TimerFires(request) => GiveUp(s, request, TimedOut)
    case Reply(id, body) => AfterReply(s, id, body)
    case RejectAll => RejectSome(s, s.pending.Keys)
  }

  datatype Trace = Idle | After(past: Trace, event: Event)

  predicate Legal(trace: Trace)
    decreases trace, 0
  {
    match trace
    case Idle => true
    case After(past, e) => Legal(past) && Enabled(Reached(past), e)
  }

  function Reached(trace: Trace): Client
    requires Legal(trace)
    decreases trace, 1
  {
    match trace
    case Idle => START
    case After(past, e) => Next(Reached(past), e)
  }

  // ---------------------------------------------------------------------------------------------
  // In every run, whatever ids the callers use

  /** The timers that run are exactly those of the unsettled requests. */
  ghost predicate TimersOwned(s: Client) {
    && (forall r :: r in s.timers <==> r in s.ids && r !in s.outcomes)
    && (forall r :: r in s.outcomes ==> r in s.ids)
    && (forall r :: r in s.writing ==> r in s.ids)
  }

  /** What is pending is unsettled and pending under its own id. */
  ghost predicate PendingUnsettled(s: Client) {
    forall id :: id in s.pending ==>
      s.pending[id] in s.ids && s.ids[s.pending[id]] == id && s.pending[id] !in s.outcomes
  }

  ghost predicate Good(s: Client) {
    TimersOwned(s) && PendingUnsettled(s)
  }

  lemma NextGood(s: Client, e: Event)
    requires Good(s) && Enabled(s, e)
    ensures Good(Next(s, e))
  {
    match e
    case Send(request, rawId) => SendGood(s, request, rawId);
    case WriteDone(_) =>
    case WriteFails(request) => GiveUpGood(s, request, WriteFailed);
    case TimerFires(request) => GiveUpGood(s, request, TimedOut);
    case Reply(id, body) => ReplyGood(s, id, body);
    case RejectAll => RejectGood(s, s.pending.Keys);
  }

  lemma SendGood(s: Client, request: nat, rawId: Option<RequestId>)
    requires Good(s) && request !in s.ids
    ensures Good(AfterSend(s, request, rawId))
  {
    hide IdToUse;
  }

  lemma GiveUpGood(s: Client, request: nat, outcome: Outcome)
    requires Good(s) && request in s.ids
    ensures Good(GiveUp(s, request, outcome))
  {
  }

  lemma ReplyGood(s: Client, id: RequestId, body: Json)
    requires Good(s)
    ensures Good(AfterReply(s, id, body))
  {
  }

  lemma RejectGood(s: Client, some: set<RequestId>)
    requires Good(s)
    ensures Good(RejectSome(s, some))
  {
  }

  /** Even when callers reuse ids, each unsettled request owns a running timer and each pending entry is unsettled. */
  lemma {:induction false} AlwaysGood(trace: Trace)
    requires Legal(trace)
    ensures Good(Reached(trace))
  {
    hide Good, Next;
    match trace
    case Idle => StartGood();
    case After(past, e) => {
      AlwaysGood(past);
      NextGood(Reached(past), e);
    }
  }

  lemma StartGood()
    ensures Good(START)
  {
  }

  /** No request waits for ever: its timer runs, and settles it when it fires. */
  lemma TimerSettles(trace: Trace, request: nat)
    requires Legal(trace) && request in Reached(trace).ids && request !in Reached(trace).outcomes
    ensures Enabled(Reached(trace), TimerFires(request))
    ensures request in Next(Reached(trace), TimerFires(request)).outcomes
    ensures Next(Reached(trace), TimerFires(request)).outcomes[request] == TimedOut
  {
    AlwaysGood(trace);
  }

  // ---------------------------------------------------------------------------------------------
  // Which requests a reply can still reach

  /** Every unsettled request is pending under its id. */
  ghost predicate Answerable(s: Client) {
    forall r :: r in s.ids && r !in s.outcomes ==> s.ids[r] in s.pending && s.pending[s.ids[r]] == r
  }

  /** Rejecting everything that is pending leaves no request unsettled exactly when all of them are pending. */
  lemma RejectAllSettlesAll(s: Client)
    requires Good(s)
    ensures (forall r :: r in s.ids ==> r in Next(s, RejectAll).outcomes) <==> Answerable(s)
  {
    var r := Next(s, RejectAll);
    if Answerable(s) {
      forall q | q in s.ids ensures q in r.outcomes {
        if q !in s.outcomes { assert s.pending[s.ids[q]] in Held(s, s.pending.Keys); }
      }
    }
    if forall q :: q in s.ids ==> q in r.outcomes {
      forall q | q in s.ids && q !in s.outcomes ensures s.ids[q] in s.pending && s.pending[s.ids[q]] == q {
        assert q in Held(s, s.pending.Keys);
      }
    }
  }

  /**
   The steps after which some request can no longer be answered: reusing the id of a pending request, and
   a write that fails after its request was settled and its id taken by another one.
   */
  predicate Orphans(s: Client, e: Event)
    requires Enabled(s, e)
  {
    || (e.Send? && IdToUse(s, e.rawId) in s.pending)
    || (e.WriteFails? && e.request in s.outcomes && s.ids[e.request] in s.pending)
  }

  /** Those steps, and no others, make an answerable client unanswerable. */
  lemma OrphansExactly(s: Client, e: Event)
    requires Good(s) && Answerable(s) && Enabled(s, e)
    ensures Answerable(Next(s, e)) <==> !Orphans(s, e)
  {
    match e
    case Send(request, rawId) => SendOrphans(s, request, rawId);
    case WriteDone(_) =>
    case WriteFails(request) => GiveUpOrphans(s, request, WriteFailed);
    case TimerFires(request) => GiveUpOrphans(s, request, TimedOut);
    case Reply(id, body) => ReplyAnswerable(s, id, body);
    case RejectAll => {
      RejectAllSettlesAll(s);
      hide Good;
    }
  }

  lemma SendOrphans(s: Client, request: nat, rawId: Option<RequestId>)
    requires Good(s) && Answerable(s) && request !in s.ids
    ensures Answerable(AfterSend(s, request, rawId)) <==> IdToUse(s, rawId) !in s.pending
  {
    hide IdToUse;
    var r, id := AfterSend(s, request, rawId), IdToUse(s, rawId);
    if id in s.pending {
      var first := s.pending[id];
      assert first in r.ids && first !in r.outcomes && r.ids[first] == id && r.pending[id] == request;
    }
  }

  lemma GiveUpOrphans(s: Client, request: nat, outcome: Outcome)
    requires Good(s) && Answerable(s) && request in s.ids
    ensures Answerable(GiveUp(s, request, outcome)) <==> !(request in s.outcomes && s.ids[request] in s.pending)
  {
    var r, id := GiveUp(s, request, outcome), s.ids[request];
    if request in s.outcomes && id in s.pending {
      assert s.pending[id] in r.ids && s.pending[id] !in r.outcomes && r.ids[s.pending[id]] == id;
    }
  }

  lemma ReplyAnswerable(s: Client, id: RequestId, body: Json)
    requires Good(s) && Answerable(s)
    ensures Answerable(AfterReply(s, id, body))
  {
  }

  /** A reply settles exactly the unsettled requests with its id, and touches no other outcome. */
  lemma ReplySettlesItsRequest(s: Client, id: RequestId, body: Json, request: nat)
    requires Good(s) && Answerable(s) && request in s.ids
    ensures var after := Next(s, Reply(id, body)).outcomes;
            if request in s.outcomes then request in after && after[request] == s.outcomes[request]
            else if s.ids[request] == id then request in after && after[request] == Resolved(body)
            else request !in after
  {
  }

  // ---------------------------------------------------------------------------------------------
  // Runs whose outstanding ids are distinct

  /** The id belongs to a request that is unsettled or whose message is still being written. */
  ghost predicate Outstanding(s: Client, id: RequestId) {
    exists r :: r in s.ids && s.ids[r] == id && (r !in s.outcomes || r in s.writing)
  }

  ghost predicate DistinctIds(trace: Trace)
    requires Legal(trace)
  {
    match trace
    case Idle => true
    case After(past, e) =>
      DistinctIds(past) && (e.Send? ==> !Outstanding(Reached(past), IdToUse(Reached(past), e.rawId)))
  }

  /** No pending request has taken the id of a settled one that is still being written. */
  ghost predicate WritersQuiet(s: Client) {
    forall r :: r in s.writing && r in s.outcomes && r in s.ids ==> s.ids[r] !in s.pending
  }

  lemma QuietNext(s: Client, e: Event)
    requires Good(s) && Answerable(s) && WritersQuiet(s) && Enabled(s, e)
    requires e.Send? ==> !Outstanding(s, IdToUse(s, e.rawId))
    ensures !Orphans(s, e) && WritersQuiet(Next(s, e))
  {
    match e
    case Send(request, rawId) => QuietSend(s, request, rawId);
    case WriteDone(_) =>
    case WriteFails(request) =>
    case TimerFires(request) =>
    case Reply(id, body) =>
    case RejectAll => assert Next(s, e).pending == map[];
  }

  lemma QuietSend(s: Client, request: nat, rawId: Option<RequestId>)
    requires Good(s) && WritersQuiet(s) && request !in s.ids && !Outstanding(s, IdToUse(s, rawId))
    ensures IdToUse(s, rawId) !in s.pending && WritersQuiet(AfterSend(s, request, rawId))
  {
    PendingIsOutstanding(s, IdToUse(s, rawId));
    hide IdToUse;
  }

  lemma PendingIsOutstanding(s: Client, id: RequestId)
    requires PendingUnsettled(s)
    ensures id in s.pending ==> Outstanding(s, id)
  {
    if id in s.pending { assert s.ids[s.pending[id]] == id; }
  }

  /**
   As long as no outstanding id is reused, every unsettled request stays answerable: a reply settles exactly
   the request with its id (section 5 of the JSON-RPC 2.0 specification) and rejecting all leaves none unsettled.
   */
  lemma {:induction false} DistinctIdsAnswered(trace: Trace)
    requires Legal(trace) && DistinctIds(trace)
    ensures Answerable(Reached(trace)) && WritersQuiet(Reached(trace))
    ensures forall r :: r in Reached(trace).ids ==> r in Next(Reached(trace), RejectAll).outcomes
  {
    AlwaysGood(trace);
    RejectAllSettlesAll(Reached(trace));
    hide Good, Next, WritersQuiet, Answerable, Outstanding;
    match trace
    case Idle => StartAnswerable();
    case After(past, e) => {
      DistinctIdsAnswered(past);
      AlwaysGood(past);
      QuietNext(Reached(past), e);
      OrphansExactly(Reached(past), e);
    }
  }

  lemma StartAnswerable()
    ensures Answerable(START) && WritersQuiet(START)
  {
  }

  predicate NoOrphans(trace: Trace)
    requires Legal(trace)
  {
    match trace
    case Idle => true
    case After(past, e) => NoOrphans(past) && !Orphans(Reached(past), e)
  }

  ghost predicate AlwaysAnswerable(trace: Trace)
    requires Legal(trace)
  {
    Answerable(Reached(trace)) && (trace.After? ==> AlwaysAnswerable(trace.past))
  }

  /** Every unsettled request is answerable all along a run exactly when no step of the run orphans one. */
  lemma {:induction false} AnswerableRuns(trace: Trace)
    requires Legal(trace)
    ensures AlwaysAnswerable(trace) <==> NoOrphans(trace)
  {
    hide Answerable, Good, Next, Orphans;
    match trace
    case Idle => StartAnswerable();
    case After(past, e) => {
      AnswerableRuns(past);
      AlwaysGood(past);
      if Answerable(Reached(past)) { OrphansExactly(Reached(past), e); }
    }
  }

  /** With a reused id it fails: the first of two requests with one id outlives the rejection of all. */
  lemma ReuseStrandsRequest(id: RequestId)
    ensures var sent := After(After(Idle, Send(0, Some(id))), Send(1, Some(id)));
            && Legal(sent)
            && 0 in Reached(sent).ids && 0 !in Next(Reached(sent), RejectAll).outcomes
  {
    var first, second := Send(0, Some(id)), Send(1, Some(id));
    assert Legal(Idle) && Reached(Idle) == START;
    Step(Idle, first);
    var s1 := Next(START, first);
    assert s1.pending == map[id := 0];
    Step(After(Idle, first), second);
    var s2 := Next(s1, second);
    assert s2.pending == map[id := 1] && s2.outcomes == map[];
    assert 0 !in Held(s2, s2.pending.Keys);
  }

  lemma Step(past: Trace, e: Event)
    requires Legal(past) && Enabled(Reached(past), e)
    ensures Legal(After(past, e)) && Reached(After(past, e)) == Next(Reached(past), e)
  {
  }

  // ---------------------------------------------------------------------------------------------
  // What the history of events says

  /** How many requests so far came without an id of their own. */
  function Unnamed(trace: Trace): nat {
    match trace
    case Idle => 0
    case After(past, e) => Unnamed(past) + if e.Send? && e.rawId.None? then 1 else 0
  }

  /** The id a request is sent under: its own, or else the next one of the client's numbers from 1 on. */
  predicate GivenId(past: Trace, rawId: Option<RequestId>, id: RequestId) {
    match rawId
    case Some(own) => id == own
    case None => id == NumberId((1 + Unnamed(past)) as real)
  }

  predicate SentAs(trace: Trace, request: nat, id: RequestId) {
    match trace
    case Idle => false
    case After(past, e) =>
      SentAs(past, request, id) || (e.Send? && e.request == request && GivenId(past, e.rawId, id))
  }

  predicate BeingWritten(trace: Trace, request: nat) {
    match trace
    case Idle => false
    case After(past, e) =>
      || (e.Send? && e.request == request)
      || (BeingWritten(past, request) && e != WriteDone(request) && e != WriteFails(request))
  }

  /** The latest request sent under the id is this one, and nothing has deleted the entry of the id since. */
  predicate LatestUnder(trace: Trace, request: nat, id: RequestId) {
    match trace
    case Idle => false
    case After(past, e) =>
      if e.Send? && GivenId(past, e.rawId, id) then e.request == request
      else
        && LatestUnder(past, request, id) && e != RejectAll && !(e.Reply? && e.id == id)
        && !((e.TimerFires? || e.WriteFails?) && SentAs(past, e.request, id))
  }

  ghost predicate TellsHistory(trace: Trace)
    requires Legal(trace)
  {
    var s := Reached(trace);
    && s.nextId == 1 + Unnamed(trace)
    && (forall r, id :: SentAs(trace, r, id) <==> r in s.ids && s.ids[r] == id)
    && (forall r :: BeingWritten(trace, r) <==> r in s.writing)
    && (forall r, id :: LatestUnder(trace, r, id) <==> id in s.pending && s.pending[id] == r)
  }

  /** Ids, writes and pending entries are what the events say: an entry belongs to the latest request with its id. */
  lemma {:induction false} HistoryTold(trace: Trace)
    requires Legal(trace)
    ensures TellsHistory(trace)
  {
    match trace
    case Idle =>
    case After(past, e) => {
      HistoryTold(past);
      hide TellsHistory, Next;
      StepTells(past, e);
    }
  }

  lemma StepTells(past: Trace, e: Event)
    requires Legal(past) && Enabled(Reached(past), e) && TellsHistory(past)
    ensures TellsHistory(After(past, e))
  {
    var s, after := Reached(past), After(past, e);
    Step(past, e);
    assert e.Send? ==> forall id :: GivenId(past, e.rawId, id) <==> id == IdToUse(s, e.rawId);
    hide Legal, Reached, IdToUse, GivenId;
    forall r, id ensures LatestUnder(after, r, id) <==> id in Next(s, e).pending && Next(s, e).pending[id] == r {
      assert LatestUnder(past, r, id) <==> id in s.pending && s.pending[id] == r;
      if e.TimerFires? || e.WriteFails? {
        assert SentAs(past, e.request, id) <==> e.request in s.ids && s.ids[e.request] == id;
      }
    }
    forall r, id ensures SentAs(after, r, id) <==> r in Next(s, e).ids && Next(s, e).ids[r] == id {
      assert SentAs(past, r, id) <==> r in s.ids && s.ids[r] == id;
    }
    forall r ensures BeingWritten(after, r) <==> r in Next(s, e).writing {
      assert BeingWritten(past, r) <==> r in s.writing;
    }
  }

  /** The event settles the request, so far unsettled, with this outcome. */
  ghost predicate SettledBy(past: Trace, e: Event, request: nat, outcome: Outcome) {
    match outcome
    case Resolved(body) => e.Reply? && e.body == body && LatestUnder(past, request, e.id)
    case TimedOut => e == TimerFires(request)
    case WriteFailed => e == WriteFails(request)
    case Rejected => e == RejectAll && Entered(past, request)
  }

  ghost predicate Entered(past: Trace, request: nat) {
    exists id :: LatestUnder(past, request, id)
  }

  /** The first event of the run that settles the request gives it this outcome. */
  ghost predicate FirstSettled(trace: Trace, request: nat, outcome: Outcome)
    requires Legal(trace)
  {
    match trace
    case Idle => false
    case After(past, e) =>
      || FirstSettled(past, request, outcome)
      || (request !in Reached(past).outcomes && SettledBy(past, e, request, outcome))
  }

  lemma EventSettles(past: Trace, e: Event, request: nat, outcome: Outcome)
    requires Legal(past) && Enabled(Reached(past), e) && Good(Reached(past)) && TellsHistory(past)
    ensures var s := Reached(past);
            var after := Next(s, e).outcomes;
            if request in s.outcomes then request in after && after[request] == s.outcomes[request]
            else request in after && after[request] == outcome <==> SettledBy(past, e, request, outcome)
  {
    hide Legal, Reached, LatestUnder, SentAs, BeingWritten, GivenId, Unnamed;
    var s := Reached(past);
    assert Entered(past, request) <==> exists id :: id in s.pending && s.pending[id] == request by {
      if id :| id in s.pending && s.pending[id] == request { Told(past, request, id); }
    }
    hide TellsHistory, Entered;
    if e == RejectAll {
      assert request in Held(s, s.pending.Keys) <==> exists id :: id in s.pending && s.pending[id] == request;
    } else if e.Reply? {
      assert LatestUnder(past, request, e.id) <==> e.id in s.pending && s.pending[e.id] == request by {
        Told(past, request, e.id);
      }
    }
  }

  lemma Told(trace: Trace, request: nat, id: RequestId)
    requires Legal(trace) && TellsHistory(trace)
    ensures LatestUnder(trace, request, id) <==> id in Reached(trace).pending && Reached(trace).pending[id] == request
  {
    hide Legal, Reached, LatestUnder, SentAs, BeingWritten, Unnamed;
  }

  /**
   How a promise was settled tells what settled it: the reply to the id under which the request was pending, its
   own timer, its own failed write, or a rejection of all that found it pending.
   */
  lemma {:induction false} OutcomesTellHistory(trace: Trace, request: nat, outcome: Outcome)
    requires Legal(trace)
    ensures var s := Reached(trace);
            request in s.outcomes && s.outcomes[request] == outcome <==> FirstSettled(trace, request, outcome)
  {
    match trace
    case Idle =>
    case After(past, e) => {
      OutcomesTellHistory(past, request, outcome);
      AlwaysGood(past);
      HistoryTold(past);
      hide Legal, Reached, FirstSettled, LatestUnder, SentAs, BeingWritten;
      EventSettles(past, e, request, outcome);
      assert Reached(trace) == Next(Reached(past), e) by { Step(past, e); }
    }
  }

  // ---------------------------------------------------------------------------------------------
  // The class

  class StdioClient {
    var pending: map<RequestId, nat>
    var timers: set<nat>
    var outcomes: map<nat, Outcome>
    var nextId: nat
    ghost var ids: map<nat, RequestId>
    ghost var writing: set<nat>

    constructor ()
      ensures Valid() && Value() == START
    {
      pending, timers, outcomes, nextId := map[], {}, map[], 1;
      ids, writing := map[], {};
    }

    ghost function Value(): Client
      reads this
    {
      Client(pending, timers, outcomes, ids, writing, nextId)
    }

    ghost predicate Valid()
      reads this
    {
      Good(Value())
    }

    method SettlePromise(request: nat, outcome: Outcome)
      modifies this`outcomes
      ensures outcomes == Settle(old(outcomes), request, outcome)
    {
      if request !in outcomes {
        outcomes := outcomes[request := outcome];
      }
    }

    /** Registers a request and starts its timer; the write goes on in the background. */
    method DoForward(request: nat, rawId: Option<RequestId>) returns (id: RequestId)
      requires Valid() && request !in ids
      modifies this
      ensures Valid() && Value() == Next(old(Value()), Send(request, rawId)) && ids[request] == id
    {
      SendGood(Value(), request, rawId);
      hide Good;
      if rawId.Some? {
        id := rawId.value;
      } else {
        id := NumberId(nextId as real);
        nextId := nextId + 1;
      }
      timers := timers + {request};
      pending := pending[id := request];
      ids, writing := ids[request := id], writing + {request};
    }

    method OnTimeout(request: nat, id: RequestId)
      requires Valid() && request in timers && request in ids && ids[request] == id
      modifies this
      ensures Valid() && Value() == Next(old(Value()), TimerFires(request))
    {
      NextGood(Value(), TimerFires(request));
      hide Good, Settle;
      timers := timers - {request};
      pending := pending - {id};
      SettlePromise(request, TimedOut);
    }

    method OnWriteError(request: nat, id: RequestId)
      requires Valid() && request in writing && request in ids && ids[request] == id
      modifies this
      ensures Valid() && Value() == Next(old(Value()), WriteFails(request))
    {
      NextGood(Value(), WriteFails(request));
      hide Good, Settle;
      timers := timers - {request};
      pending := pending - {id};
      SettlePromise(request, WriteFailed);
      writing := writing - {request};
    }

    /** A line with an `id` that has been parsed. */
    method OnReply(id: RequestId, body: Json)
      requires Valid()
      modifies this
      ensures Valid() && Value() == Next(old(Value()), Reply(id, body))
    {
      NextGood(Value(), Reply(id, body));
      hide Good, Settle;
      if id !in pending {
        return;
      }
      var request := pending[id];
      timers := timers - {request};
      pending := pending - {id};
      SettlePromise(request, Resolved(body));
    }

    method RejectAllPending()
      requires Valid()
      modifies this
      ensures Valid() && Value() == Next(old(Value()), RejectAll)
    {
      ghost var start := Value();
      NextGood(start, RejectAll);
      RejectNone(start);
      var todo := pending.Keys;
      assert start.pending.Keys - todo == {};
      hide Good, RejectSome;
      while todo != {}
        invariant todo <= start.pending.Keys && Value() == RejectSome(start, start.pending.Keys - todo)
        invariant forall id :: id in todo ==> id in pending && pending[id] == start.pending[id]
        decreases |todo|
      {
        var id :| id in todo;
        RejectNext(start, todo, id);
        RejectEntry(id);
        todo := todo - {id};
      }
      assert start.pending.Keys - todo == start.pending.Keys;
    }

    method RejectEntry(id: RequestId)
      requires id in pending
      modifies this`timers, this`pending, this`outcomes
      ensures Value() == RejectOne(old(Value()), id)
    {
      var request := pending[id];
      timers := timers - {request};
      SettlePromise(request, Rejected);
      pending := pending - {id};
    }
  }

  function RejectOne(s: Client, id: RequestId): Client
    requires id in s.pending
  {
    s.(pending := s.pending - {id}, timers := s.timers - {s.pending[id]},
       outcomes := Settle(s.outcomes, s.pending[id], Rejected))
  }

  lemma RejectNone(s: Client)
    ensures RejectSome(s, {}) == s
  {
    assert Held(s, {}) == {};
  }

  lemma RejectNext(s: Client, todo: set<RequestId>, id: RequestId)
    requires id in todo && todo <= s.pending.Keys
    ensures var r := RejectSome(s, s.pending.Keys - todo);
            && id in r.pending
            && RejectOne(r, id) == RejectSome(s, s.pending.Keys - (todo - {id}))
            && forall k :: k in todo && k != id ==> k in RejectOne(r, id).pending
  {
    var done := s.pending.Keys - todo;
    assert s.pending.Keys - (todo - {id}) == done + {id};
    assert Held(s, done + {id}) == Held(s, done) + {s.pending[id]};
  }
}
