/**
 Governance approvals (src/governance/store.ts:113-274, 350-360; src/governance/runtime.ts:82-92, 233-393;
 src/gateway/pipeline.ts:1060-1137). The table of requests is a map; each operation reads the clock once.
 */
module Approvals {
  import opened Wrappers
  import opened JsonText
  import opened CanonicalJson
  import opened CacheKey

  datatype Role = Owner | Admin | Approver | Operator | Developer | Viewer

  const WORKSPACE_ROLES := [Owner, Admin, Approver, Operator, Developer, Viewer]
  const DEFAULT_APPROVER_ROLES := [Owner, Admin, Approver]
  const DEFAULT_APPROVAL_TTL_SECONDS := 3600
  const STAR: CodeUnit := 42

  datatype Binding = Binding(workspaceId: Text, role: Role, clients: seq<Text>)

  /** The part of the governance configuration that approvals depend on. */
  datatype Policy = Policy(
    bindings: seq<Binding>, requiredRoles: Option<seq<Role>>, allowSelfApproval: Option<bool>, ttlSeconds: Option<int>)

  type ToolArgs = v: Json | WellFormed(v) witness Null

  datatype Subject = Subject(workspaceId: Text, requester: Text, serverId: Text, toolName: Text, fingerprint: Digest)

  datatype Status = Pending | Approved | Rejected | Expired

  datatype Row = Row(
    subject: Subject, status: Status, createdAt: int, updatedAt: int, expiresAt: int, approver: Option<Text>)

  type Rows = map<nat, Row>

  function GetOr<T>(o: Option<T>, default: T): T {
    if o.Some? then o.value else default
  }

  // ---------------------------------------------------------------------------------------------
  // Roles

  /** `*`, `prefix*`, or an exact name (src/utils/pattern.ts). */
  predicate MatchesPattern(pattern: Text, value: Text) {
    if pattern == [STAR] then true
    else if pattern != [] && pattern[|pattern| - 1] == STAR then pattern[..|pattern| - 1] <= value
    else pattern == value
  }

  predicate Grants(b: Binding, workspaceId: Text, clientId: Text, role: Role) {
    && b.workspaceId == workspaceId && b.role == role
    && exists i :: 0 <= i < |b.clients| && MatchesPattern(b.clients[i], clientId)
  }

  /** Some binding of the workspace gives the client the role. */
  predicate Holds(bindings: seq<Binding>, workspaceId: Text, clientId: Text, role: Role) {
    exists i :: 0 <= i < |bindings| && Grants(bindings[i], workspaceId, clientId, role)
  }

  predicate IsApprover(policy: Policy, workspaceId: Text, clientId: Text) {
    exists i :: 0 <= i < |GetOr(policy.requiredRoles, DEFAULT_APPROVER_ROLES)|
      && Holds(policy.bindings, workspaceId, clientId, GetOr(policy.requiredRoles, DEFAULT_APPROVER_ROLES)[i])
  }

  predicate MayDecide(policy: Policy, subject: Subject, approver: Text) {
    && IsApprover(policy, subject.workspaceId, approver)
    && (GetOr(policy.allowSelfApproval, false) || subject.requester != approver)
  }

  /** A pattern names itself, and with a trailing `*` everything that starts with the rest of it. */
  lemma MatchesExactly(pattern: Text, value: Text)
    ensures MatchesPattern(pattern, value) <==> pattern == value || exists q :: pattern == q + [42] && q <= value
  {
    if pattern != [] && pattern[|pattern| - 1] == 42 {
      var q := pattern[..|pattern| - 1];
      assert pattern == q + [42];
      assert forall p: Text :: pattern == p + [42] ==> p == (p + [42])[..|p|] == q;
      if pattern == value { assert q <= value; }
    }
  }

  /** A binding of the workspace that gives the role to the client, by some pattern of its list. */
  ghost predicate Names(b: Binding, workspaceId: Text, role: Role, clientId: Text) {
    && b.workspaceId == workspaceId && b.role == role
    && exists pattern :: pattern in b.clients && MatchesPattern(pattern, clientId)
  }

  lemma GrantsNames(b: Binding, workspaceId: Text, role: Role, clientId: Text)
    ensures Grants(b, workspaceId, clientId, role) <==> Names(b, workspaceId, role, clientId)
  {
    hide MatchesPattern;
    if Names(b, workspaceId, role, clientId) {
      var pattern :| pattern in b.clients && MatchesPattern(pattern, clientId);
      var i :| 0 <= i < |b.clients| && b.clients[i] == pattern;
    }
  }

  /** The roles that may decide: the configured ones, or owner, admin and approver. */
  ghost predicate Required(policy: Policy, role: Role) {
    if policy.requiredRoles.Some? then role in policy.requiredRoles.value
    else role.Owner? || role.Admin? || role.Approver?
  }

  ghost predicate HoldsRequired(policy: Policy, workspaceId: Text, clientId: Text) {
    exists role, b :: Required(policy, role) && b in policy.bindings && Names(b, workspaceId, role, clientId)
  }

  lemma IsApproverExactly(policy: Policy, workspaceId: Text, clientId: Text)
    ensures IsApprover(policy, workspaceId, clientId) <==> HoldsRequired(policy, workspaceId, clientId)
  {
    hide Grants, Names;
    var roles := GetOr(policy.requiredRoles, DEFAULT_APPROVER_ROLES);
    assert forall role :: Required(policy, role) <==> role in roles;
    if IsApprover(policy, workspaceId, clientId) {
      var i :| 0 <= i < |roles| && Holds(policy.bindings, workspaceId, clientId, roles[i]);
      var j :| 0 <= j < |policy.bindings| && Grants(policy.bindings[j], workspaceId, clientId, roles[i]);
      GrantsNames(policy.bindings[j], workspaceId, roles[i], clientId);
    }
    if HoldsRequired(policy, workspaceId, clientId) {
      var role, b :| Required(policy, role) && b in policy.bindings && Names(b, workspaceId, role, clientId);
      GrantsNames(b, workspaceId, role, clientId);
      var i :| 0 <= i < |roles| && roles[i] == role;
      var j :| 0 <= j < |policy.bindings| && policy.bindings[j] == b;
      assert Holds(policy.bindings, workspaceId, clientId, roles[i]);
    }
  }

  /**
   Who may decide on a request: the holders of a required role in its workspace, and among them the requester only
   if the policy says so.
   */
  lemma MayDecideExactly(policy: Policy, subject: Subject, approver: Text)
    ensures MayDecide(policy, subject, approver) <==>
              && HoldsRequired(policy, subject.workspaceId, approver)
              && (approver == subject.requester ==> policy.allowSelfApproval == Some(true))
  {
    IsApproverExactly(policy, subject.workspaceId, approver);
    hide IsApprover, HoldsRequired;
  }

  // ---------------------------------------------------------------------------------------------
  // The table

  function PrunedRow(row: Row, now: int): Row {
    if row.status.Pending? && row.expiresAt <= now then row.(status := Expired, updatedAt := now) else row
  }

  function Prune(rows: Rows, now: int): Rows {
    map id | id in rows :: PrunedRow(rows[id], now)
  }

  predicate IsOpen(row: Row, subject: Subject, now: int) {
    row.subject == subject && row.status.Pending? && row.expiresAt > now
  }

  predicate HasOpen(rows: Rows, subject: Subject, now: int) {
    exists id :: id in rows && IsOpen(rows[id], subject, now)
  }

  function AfterCreate(rows: Rows, now: int, subject: Subject, expiresAt: int, freshId: nat): Rows {
    var pruned := Prune(rows, now);
    if HasOpen(pruned, subject, now) then pruned
    else Prune(pruned[freshId := Row(subject, Pending, now, now, expiresAt, None)], now)
  }

  datatype DecideError = NotFound | AlreadyDecided(status: Status) | Impersonation | NotAnApprover | SelfApproval

  /** The first objection to a decision, in the order of the checks. */
  function Objection(policy: Policy, pruned: Rows, id: nat, approver: Text,
                     principal: Option<Text>): Option<DecideError> {
    if id !in pruned then Some(NotFound)
    else if !pruned[id].status.Pending? then Some(AlreadyDecided(pruned[id].status))
    else if principal.Some? && principal.value != approver then Some(Impersonation)
    else if !IsApprover(policy, pruned[id].subject.workspaceId, approver) then Some(NotAnApprover)
    else if !GetOr(policy.allowSelfApproval, false) && pruned[id].subject.requester == approver then Some(SelfApproval)
    else None
  }

  /** What is refused, and why: each objection in exactly its cases, none for an entitled approver of an open row. */
  lemma ObjectionExactly(policy: Policy, pruned: Rows, id: nat, approver: Text, principal: Option<Text>)
    ensures var error := Objection(policy, pruned, id, approver, principal);
            var asThemselves := principal.Some? ==> principal.value == approver;
            && (error == Some(NotFound) <==> id !in pruned)
            && (id in pruned ==>
                  var row := pruned[id];
                  && (forall st :: error == Some(AlreadyDecided(st)) <==> row.status == st && st != Pending)
                  && (error == Some(Impersonation) <==> row.status == Pending && !asThemselves)
                  && (error == Some(NotAnApprover) <==>
                        row.status == Pending && asThemselves
                        && !HoldsRequired(policy, row.subject.workspaceId, approver))
                  && (error == Some(SelfApproval) <==>
                        row.status == Pending && asThemselves
                        && HoldsRequired(policy, row.subject.workspaceId, approver)
                        && !MayDecide(policy, row.subject, approver)))
            && (error.None? <==> id in pruned && pruned[id].status == Pending && asThemselves
                                 && MayDecide(policy, pruned[id].subject, approver))
  {
    if id in pruned { IsApproverExactly(policy, pruned[id].subject.workspaceId, approver); }
    hide IsApprover, HoldsRequired;
  }

  function AfterDecide(policy: Policy, rows: Rows, now: int, id: nat, approved: bool, approver: Text,
                       principal: Option<Text>): Rows {
    var pruned := Prune(rows, now);
    if Objection(policy, pruned, id, approver, principal).Some? then pruned
    else pruned[id := DecidedRow(pruned[id], approved, approver, now)]
  }

  function DecidedRow(row: Row, approved: bool, approver: Text, now: int): Row {
    row.(status := if approved then Approved else Rejected, approver := Some(approver), updatedAt := now)
  }

  predicate Granted(rows: Rows, now: int, id: nat, subject: Subject) {
    var pruned := Prune(rows, now);
    id in pruned && pruned[id].status.Approved? && pruned[id].subject == subject && pruned[id].expiresAt > now
  }

  // ---------------------------------------------------------------------------------------------
  // Runs

  datatype Call = Call(workspaceId: Text, requester: Text, serverId: Text, toolName: Text, args: ToolArgs)

  function SubjectOf(c: Call): Subject {
    Subject(c.workspaceId, c.requester, c.serverId, c.toolName, BuildRequestFingerprint(c.serverId, c.toolName, c.args))
  }

  function ExpiryOf(policy: Policy, now: int): int {
    now + GetOr(policy.ttlSeconds, DEFAULT_APPROVAL_TTL_SECONDS) * 1000
  }

  datatype Desk = Desk(now: int, rows: Rows)

  /**
   `Gate` is a tool call that needs approval, with the approval id it carries, if any; `Look` only reads the
   table. The rows outlive reloads of the configuration, so each event comes with the policy then in force.
   */
  datatype Event =
    | Gate(now: int, policy: Policy, provided: Option<nat>, call: Call, freshId: nat)
    | Decide(now: int, policy: Policy, id: nat, approved: bool, approver: Text, principal: Option<Text>)
    | Look(now: int)

  predicate Enabled(s: Desk, e: Event) {
    s.now <= e.now && (e.Gate? ==> e.freshId !in s.rows)
  }

  function Next(s: Desk, e: Event): Desk {
    match e
    case Gate(now, policy, provided, call, freshId) =>
      Desk(now, if provided.Some? then Prune(s.rows, now)
                else AfterCreate(s.rows, now, SubjectOf(call), ExpiryOf(policy, now), freshId))
    case Decide(now, policy, id, approved, approver, principal) =>
      Desk(now, AfterDecide(policy, s.rows, now, id, approved, approver, principal))
    case Look(now) => Desk(now, Prune(s.rows, now))
  }

  datatype Trace = Opened(start: int) | After(past: Trace, event: Event)

  function Reached(trace: Trace): Desk {
    match trace
    case Opened(start) => Desk(start, map[])
    case After(past, e) => Next(Reached(past), e)
  }

  predicate Legal(trace: Trace) {
    match trace
    case Opened(_) => true
    case After(past, e) => Legal(past) && Enabled(Reached(past), e)
  }

  // ---------------------------------------------------------------------------------------------
  // History

  /** A tool call that made a request, and the policy that set its time to live. */
  datatype Creation = Creation(at: int, policy: Policy, call: Call)

  predicate Creates(s: Desk, e: Event, id: nat) {
    && e.Gate? && e.provided.None? && e.freshId == id
    && !HasOpen(Prune(s.rows, e.now), SubjectOf(e.call), e.now)
  }

  /** The tool call that made the request `id`. */
  function CreationOf(trace: Trace, id: nat): Option<Creation> {
    match trace
    case Opened(_) => None
    case After(past, e) =>
      if Creates(Reached(past), e, id) then Some(Creation(e.now, e.policy, e.call)) else CreationOf(past, id)
  }

  /** An accepted decision, and the policy that allowed it. */
  datatype Decision = Decision(at: int, policy: Policy, approved: bool, approver: Text, principal: Option<Text>)

  predicate Decides(s: Desk, e: Event, id: nat) {
    e.Decide? && e.id == id && Objection(e.policy, Prune(s.rows, e.now), id, e.approver, e.principal).None?
  }

  function DecisionOf(e: Event): Decision
    requires e.Decide?
  {
    Decision(e.now, e.policy, e.approved, e.approver, e.principal)
  }

  /** All decisions that were accepted for the request `id`. */
  function DecisionsOn(trace: Trace, id: nat): seq<Decision> {
    match trace
    case Opened(_) => []
    case After(past, e) => DecisionsOn(past, id) + if Decides(Reached(past), e, id) then [DecisionOf(e)] else []
  }

  function Expiry(c: Creation): int {
    ExpiryOf(c.policy, c.at)
  }

  /** A decision by somebody entitled to it at that time, as themselves, while the request was open. */
  predicate Authorised(c: Creation, d: Decision) {
    && MayDecide(d.policy, SubjectOf(c.call), d.approver)
    && (d.principal.Some? ==> d.principal.value == d.approver)
    && c.at <= d.at < Expiry(c)
  }

  /** What a row says is what its history says. */
  predicate RowTells(row: Row, creation: Option<Creation>, decisions: seq<Decision>, now: int) {
    && creation.Some? && creation.value.at <= now
    && row.subject == SubjectOf(creation.value.call)
    && row.expiresAt == Expiry(creation.value) && row.createdAt == creation.value.at
    && match row.status {
         case Pending => decisions == [] && row.approver == None && row.updatedAt == creation.value.at
         case Expired => decisions == [] && row.approver == None && row.expiresAt <= row.updatedAt <= now
         case Approved => |decisions| == 1 && decisions[0].approved && DecidedBy(row, creation.value, decisions[0])
         case Rejected => |decisions| == 1 && !decisions[0].approved && DecidedBy(row, creation.value, decisions[0])
       }
  }

  /** The row names the approver and the time of the decision, which was authorised. */
  predicate DecidedBy(row: Row, c: Creation, d: Decision) {
    Authorised(c, d) && row.approver == Some(d.approver) && row.updatedAt == d.at
  }

  predicate RowTold(trace: Trace, id: nat) {
    var s := Reached(trace);
    if id in s.rows then RowTells(s.rows[id], CreationOf(trace, id), DecisionsOn(trace, id), s.now)
    else CreationOf(trace, id).None? && DecisionsOn(trace, id) == []
  }

  lemma PrunedTells(row: Row, creation: Option<Creation>, decisions: seq<Decision>, now: int, later: int)
    requires RowTells(row, creation, decisions, now) && now <= later
    ensures RowTells(PrunedRow(row, later), creation, decisions, later)
  {
    hide SubjectOf, Expiry, Authorised;
  }

  lemma NewRowTells(policy: Policy, call: Call, now: int)
    ensures RowTells(PrunedRow(Row(SubjectOf(call), Pending, now, now, ExpiryOf(policy, now), None), now),
                     Some(Creation(now, policy, call)), [], now)
  {
    hide SubjectOf, ExpiryOf, Authorised;
  }

  lemma DecidedTells(row: Row, creation: Option<Creation>, d: Decision, now: int)
    requires RowTells(row, creation, [], now) && row.status.Pending? && row.expiresAt > now && d.at == now
    requires MayDecide(d.policy, row.subject, d.approver) && (d.principal.Some? ==> d.principal.value == d.approver)
    ensures RowTells(DecidedRow(row, d.approved, d.approver, now), creation, [d], now)
  {
    hide SubjectOf, Expiry, MayDecide;
  }

  lemma RowStep(past: Trace, e: Event, id: nat)
    requires Enabled(Reached(past), e) && RowTold(past, id)
    ensures RowTold(After(past, e), id)
  {
    var s := Reached(past);
    var creation, decisions := CreationOf(past, id), DecisionsOn(past, id);
    hide Reached, RowTells, SubjectOf, ExpiryOf, HasOpen, IsApprover, MayDecide;
    RowAfter(s, e, id);
    assert Reached(After(past, e)) == Next(s, e) by { ReachedNext(past, e); }
    hide Next;
    assert decisions + [] == decisions;
    if id in s.rows {
      var row := PrunedRow(s.rows[id], e.now);
      PrunedTells(s.rows[id], creation, decisions, s.now, e.now);
      PrunedTells(row, creation, decisions, e.now, e.now);
      if Decides(s, e, id) {
        OpenHasNoDecision(row, creation, decisions, e.now);
        DecidedTells(row, creation, DecisionOf(e), e.now);
        assert decisions + [DecisionOf(e)] == [DecisionOf(e)];
      }
    } else if Creates(s, e, id) {
      NewRowTells(e.policy, e.call, e.now);
    }
  }

  /** What an event does to one row. */
  lemma RowAfter(s: Desk, e: Event, id: nat)
    requires Enabled(s, e)
    ensures var r := Next(s, e);
            && r.now == e.now
            && (id in r.rows <==> id in s.rows || Creates(s, e, id))
            && (id in s.rows ==>
                  var row := PrunedRow(s.rows[id], e.now);
                  !Creates(s, e, id)
                  && r.rows[id] == if Decides(s, e, id) then DecidedRow(row, e.approved, e.approver, e.now)
                                   else PrunedRow(row, e.now))
            && (id in s.rows && Decides(s, e, id) ==>
                  var row := PrunedRow(s.rows[id], e.now);
                  row.status.Pending? && row.expiresAt > e.now && MayDecide(e.policy, row.subject, e.approver)
                  && (e.principal.Some? ==> e.principal.value == e.approver))
            && (id !in s.rows ==> !Decides(s, e, id))
            && (Creates(s, e, id) ==>
                  var row := Row(SubjectOf(e.call), Pending, e.now, e.now, ExpiryOf(e.policy, e.now), None);
                  r.rows[id] == PrunedRow(row, e.now))
  {
    hide SubjectOf, ExpiryOf, HasOpen, IsApprover;
  }

  lemma ReachedNext(past: Trace, e: Event)
    ensures Reached(After(past, e)) == Next(Reached(past), e)
  {
  }

  lemma OpenHasNoDecision(row: Row, creation: Option<Creation>, decisions: seq<Decision>, now: int)
    requires RowTells(row, creation, decisions, now) && row.status.Pending?
    ensures decisions == []
  {
  }

  lemma {:induction false} AlwaysTold(trace: Trace, id: nat)
    requires Legal(trace)
    ensures RowTold(trace, id)
  {
    match trace
    case Opened(_) =>
    case After(past, e) => {
      AlwaysTold(past, id);
      hide RowTold, Next, Enabled;
      RowStep(past, e, id);
    }
  }

  // ---------------------------------------------------------------------------------------------
  // What the history gives

  /** A grant for one of the calls is a grant for the other: `__proto__` keys are not looked at. */
  predicate SameRequest(a: Call, b: Call) {
    && a.workspaceId == b.workspaceId && a.requester == b.requester && a.serverId == b.serverId
    && a.toolName == b.toolName
    && SameExcept(a.args, b.args, {PROTO})
  }

  lemma SameSubject(a: Call, b: Call)
    ensures SubjectOf(a) == SubjectOf(b) <==> SameRequest(a, b)
  {
    if a.serverId == b.serverId && a.toolName == b.toolName {
      SameFingerprintSameArgs(a.serverId, a.toolName, a.args, b.args);
    }
    hide BuildRequestFingerprint, SameExcept;
  }

  predicate EqualRequest(a: Call, b: Call) {
    && a.workspaceId == b.workspaceId && a.requester == b.requester && a.serverId == b.serverId
    && a.toolName == b.toolName
    && EqualUpToKeyOrder(a.args, b.args)
  }

  /** Calls whose arguments have no `__proto__` key share a subject exactly when they agree up to key order. */
  lemma SameSubjectUpToKeyOrder(a: Call, b: Call)
    requires !HasKey(a.args, PROTO) && !HasKey(b.args, PROTO)
    ensures SubjectOf(a) == SubjectOf(b) <==> EqualRequest(a, b)
  {
    SameSubject(a, b);
    IgnoringAbsentKey(a.args, b.args, PROTO);
    hide SubjectOf, HasKey, SameExcept, EqualUpToKeyOrder;
  }

  /** And exactly these calls are bound to their arguments. */
  lemma BoundToArgs(a: Call)
    ensures (forall b: Call :: !HasKey(b.args, PROTO) ==> (SubjectOf(a) == SubjectOf(b) <==> EqualRequest(a, b)))
            <==> !HasKey(a.args, PROTO)
  {
    if HasKey(a.args, PROTO) {
      DeepSortKeepsValue(a.args);
      var b := a.(args := DeepSort(a.args));
      SortingLosesProto(a.args);
      hide SubjectOf, HasKey, SameExcept, EqualUpToKeyOrder, DeepSort;
      SameSubject(a, b);
    } else {
      hide SubjectOf, HasKey, EqualRequest;
      forall b: Call | !HasKey(b.args, PROTO) ensures SubjectOf(a) == SubjectOf(b) <==> EqualRequest(a, b) {
        SameSubjectUpToKeyOrder(a, b);
      }
    }
  }

  /** An approval of a call with the arguments `{}` is one of the call with `{"__proto__": null}`, and conversely. */
  lemma GrantIgnoresProto(rows: Rows, now: int, id: nat, call: Call)
    ensures var plain, other := Object([]), Object([Member(PROTO, Null)]);
            && WellFormed(plain) && WellFormed(other) && !EqualUpToKeyOrder(plain, other)
            && (Granted(rows, now, id, SubjectOf(call.(args := plain)))
                <==> Granted(rows, now, id, SubjectOf(call.(args := other))))
  {
    ProtoIsLost();
    var plain, other := Object([]), Object([Member(PROTO, Null)]);
    SameFingerprintSameArgs(call.serverId, call.toolName, plain, other);
    StringifyCanonical(plain, other);
    hide Granted, BuildRequestFingerprint, DeterministicStringify, SameExcept, WellFormed;
    assert SubjectOf(call.(args := plain)) == SubjectOf(call.(args := other));
    NotEqualBack(plain, other);
  }

  lemma NotEqualBack(a: Json, b: Json)
    requires a.Object? && b.Object? && a.members == [] && |b.members| == 1
    ensures !EqualUpToKeyOrder(a, b)
  {
    assert b.members[0].key in Keys(b.members) - {} && b.members[0].key !in Keys(a.members) - {};
  }

  predicate TracesBack(creation: Option<Creation>, decisions: seq<Decision>, now: int, call: Call) {
    && creation.Some? && SameRequest(creation.value.call, call)
    && now < Expiry(creation.value)
    && |decisions| == 1 && decisions[0].approved && Authorised(creation.value, decisions[0])
  }

  /**
   An approval id opens the gate exactly when it was made by a call of the same client in the same workspace to
   the same server and tool with the same arguments (up to key order and `__proto__` keys), has not expired under
   the policy in force when it was made, and was decided exactly once: approved, in time, by a holder of a role
   required under the policy in force at that time, who is not the requester unless that policy allows it.
   */
  lemma GrantTracesBack(trace: Trace, now: int, id: nat, call: Call)
    requires Legal(trace) && Reached(trace).now <= now
    ensures Granted(Reached(trace).rows, now, id, SubjectOf(call)) <==>
              TracesBack(CreationOf(trace, id), DecisionsOn(trace, id), now, call)
  {
    AlwaysTold(trace, id);
    var s := Reached(trace);
    if id in s.rows {
      SameSubject(CreationOf(trace, id).value.call, call);
    }
    hide Reached, SubjectOf, SameRequest, Authorised, Expiry, CreationOf, DecisionsOn;
  }

  // ---------------------------------------------------------------------------------------------
  // What must be granted

  function Joined(trace: Trace, more: seq<Event>): Trace {
    if more == [] then trace else After(Joined(trace, more[..|more| - 1]), more[|more| - 1])
  }

  /** Somebody entitled decides, as themselves, on a request that is still open: created, undecided and unexpired. */
  predicate EntitledDecision(trace: Trace, e: Event) {
    && e.Decide? && Legal(trace) && Reached(trace).now <= e.now
    && CreationOf(trace, e.id).Some? && DecisionsOn(trace, e.id) == []
    && e.now < Expiry(CreationOf(trace, e.id).value)
    && MayDecide(e.policy, SubjectOf(CreationOf(trace, e.id).value.call), e.approver)
    && (e.principal.Some? ==> e.principal.value == e.approver)
  }

  lemma EntitledIsAccepted(trace: Trace, e: Event)
    requires EntitledDecision(trace, e)
    ensures Legal(After(trace, e)) && Decides(Reached(trace), e, e.id)
    ensures var rows := Reached(After(trace, e)).rows;
            var creation := CreationOf(trace, e.id).value;
            && e.id in rows && rows[e.id].status == (if e.approved then Approved else Rejected)
            && rows[e.id].subject == SubjectOf(creation.call) && rows[e.id].expiresAt == Expiry(creation)
  {
    AlwaysTold(trace, e.id);
    var s := Reached(trace);
    hide Reached, CreationOf, DecisionsOn, SubjectOf, Expiry, MayDecide, Next, HoldsRequired, Authorised;
    assert s.rows[e.id].status == Pending;
    ObjectionExactly(e.policy, Prune(s.rows, e.now), e.id, e.approver, e.principal);
    hide Objection;
    RowAfter(s, e, e.id);
    assert Reached(After(trace, e)) == Next(s, e) by { ReachedNext(trace, e); }
    assert Legal(After(trace, e));
  }

  lemma {:induction false} DecidedForEver(trace: Trace, more: seq<Event>, id: nat)
    requires Legal(Joined(trace, more)) && id in Reached(trace).rows && Reached(trace).rows[id].status != Pending
    ensures Legal(trace) && id in Reached(Joined(trace, more)).rows
    ensures Reached(Joined(trace, more)).rows[id] == Reached(trace).rows[id]
    decreases |more|
  {
    if more != [] {
      hide Next;
      var past := Joined(trace, more[..|more| - 1]);
      DecidedForEver(trace, more[..|more| - 1], id);
      DecidedStays(Reached(past), more[|more| - 1], id);
    }
  }

  /**
   A decision that must be accepted is accepted, and it is final: whatever happens afterwards, an approval opens
   the gate until its expiry for the requests it was asked for and for no others, and a rejection never does.
   */
  lemma EntitledDecisionGrants(trace: Trace, e: Event, more: seq<Event>, now: int, call: Call)
    requires EntitledDecision(trace, e) && Legal(Joined(After(trace, e), more))
    ensures var creation := CreationOf(trace, e.id).value;
            Granted(Reached(Joined(After(trace, e), more)).rows, now, e.id, SubjectOf(call)) <==>
              e.approved && SameRequest(creation.call, call) && now < Expiry(creation)
  {
    EntitledIsAccepted(trace, e);
    DecidedForEver(After(trace, e), more, e.id);
    SameSubject(CreationOf(trace, e.id).value.call, call);
    hide Reached, Legal, Joined, CreationOf, DecisionsOn, SubjectOf, Expiry, MayDecide, SameRequest, Decides;
  }

  /** A call without an approval id finds the open request of its subject, or makes one that is open till its expiry. */
  lemma GateOpensRequest(s: Desk, e: Event)
    requires Enabled(s, e) && e.Gate? && e.provided.None?
    ensures var pruned, r, subject := Prune(s.rows, e.now), Next(s, e).rows, SubjectOf(e.call);
            var expiresAt := e.now + (if e.policy.ttlSeconds.Some? then e.policy.ttlSeconds.value else 3600) * 1000;
            if exists id :: id in pruned && pruned[id].subject == subject && pruned[id].status == Pending then
              r == pruned
            else r == pruned[e.freshId := Row(subject, if e.now < expiresAt then Pending else Expired, e.now, e.now,
                                              expiresAt, None)]
  {
    hide SubjectOf;
    var pruned, subject := Prune(s.rows, e.now), SubjectOf(e.call);
    assert forall id :: id in pruned && pruned[id].status == Pending ==> pruned[id].expiresAt > e.now;
    assert HasOpen(pruned, subject, e.now) <==>
        exists id :: id in pruned && pruned[id].subject == subject && pruned[id].status == Pending;
  }

  /** Reading the table expires the pending rows whose time has come, and does nothing else. */
  lemma PruneExactly(rows: Rows, now: int)
    ensures Prune(rows, now).Keys == rows.Keys
    ensures forall id :: id in rows ==>
              Prune(rows, now)[id] == if rows[id].status == Pending && now >= rows[id].expiresAt
                                      then rows[id].(status := Expired, updatedAt := now) else rows[id]
  {
  }

  /** A row that is no longer pending never changes again. */
  lemma DecidedStays(s: Desk, e: Event, id: nat)
    requires Enabled(s, e) && id in s.rows && !s.rows[id].status.Pending?
    ensures id in Next(s, e).rows && Next(s, e).rows[id] == s.rows[id]
  {
    hide IsApprover, SubjectOf, ExpiryOf, HasOpen;
  }

  predicate BothPending(a: Row, b: Row) {
    a.status.Pending? && b.status.Pending? && a.subject == b.subject
  }

  /** At most one request per subject is pending. */
  ghost predicate OnePending(rows: Rows) {
    forall a, b :: a in rows && b in rows && BothPending(rows[a], rows[b]) ==> a == b
  }

  lemma {:induction false} AlwaysOnePending(trace: Trace)
    requires Legal(trace)
    ensures OnePending(Reached(trace).rows)
  {
    match trace
    case Opened(_) =>
    case After(past, e) => {
      AlwaysOnePending(past);
      hide OnePending, Next, Enabled;
      OnePendingNext(Reached(past), e);
    }
  }

  lemma OnePendingNext(s: Desk, e: Event)
    requires OnePending(s.rows) && Enabled(s, e)
    ensures OnePending(Next(s, e).rows)
  {
    hide OnePending, SubjectOf, ExpiryOf, AfterCreate, AfterDecide, Prune;
    PruneKeepsOne(s.rows, e.now);
    match e
    case Gate(now, policy, provided, call, freshId) =>
      if provided.None? { CreateKeepsOne(s.rows, now, SubjectOf(call), ExpiryOf(policy, now), freshId); }
    case Decide(now, policy, id, approved, approver, principal) =>
      DecideKeepsOne(policy, s.rows, now, id, approved, approver, principal);
    case Look(_) =>
  }

  lemma PruneKeepsOne(rows: Rows, now: int)
    requires OnePending(rows)
    ensures OnePending(Prune(rows, now))
  {
  }

  lemma CreateKeepsOne(rows: Rows, now: int, subject: Subject, expiresAt: int, freshId: nat)
    requires OnePending(rows) && freshId !in rows
    ensures OnePending(AfterCreate(rows, now, subject, expiresAt, freshId))
  {
    PruneKeepsOne(rows, now);
    var pruned := Prune(rows, now);
    if !HasOpen(pruned, subject, now) {
      assert forall id :: id in pruned && pruned[id].subject == subject && pruned[id].status.Pending? ==>
                            IsOpen(pruned[id], subject, now);
      PruneKeepsOne(pruned[freshId := Row(subject, Pending, now, now, expiresAt, None)], now);
    }
  }

  lemma DecideKeepsOne(policy: Policy, rows: Rows, now: int, id: nat, approved: bool, approver: Text,
                       principal: Option<Text>)
    requires OnePending(rows)
    ensures OnePending(AfterDecide(policy, rows, now, id, approved, approver, principal))
  {
    hide IsApprover;
    PruneKeepsOne(rows, now);
  }

  // ---------------------------------------------------------------------------------------------
  // The classes

  class GovernanceStore {
    var rows: Rows

    constructor ()
      ensures rows == map[]
    {
      rows := map[];
    }

    method PruneExpiredApprovalRequests(now: int)
      modifies this
      ensures rows == Prune(old(rows), now)
    {
      rows := Prune(rows, now);
    }

    /** At most one open request matches (`AlwaysOnePending`), so the order of the query does not matter. */
    method CreateOrReuseApprovalRequest(now: int, subject: Subject, expiresAt: int, freshId: nat)
      returns (id: nat, row: Row)
      requires freshId !in rows
      modifies this
      ensures rows == AfterCreate(old(rows), now, subject, expiresAt, freshId)
      ensures id in rows && row == rows[id] && row.subject == subject
      ensures if HasOpen(Prune(old(rows), now), subject, now) then id in old(rows) && IsOpen(row, subject, now)
              else id == freshId
    {
      PruneExpiredApprovalRequests(now);
      if exists existing :: existing in rows && IsOpen(rows[existing], subject, now) {
        id :| id in rows && IsOpen(rows[id], subject, now);
        return id, rows[id];
      }
      rows := rows[freshId := Row(subject, Pending, now, now, expiresAt, None)];
      PruneExpiredApprovalRequests(now);
      id, row := freshId, rows[freshId];
    }

    method GetApprovalRequest(now: int, id: nat) returns (row: Option<Row>)
      modifies this
      ensures rows == Prune(old(rows), now)
      ensures row == if id in rows then Some(rows[id]) else None
    {
      PruneExpiredApprovalRequests(now);
      row := if id in rows then Some(rows[id]) else None;
    }

    /** The caller has just read the row as pending at the same time. */
    method DecideRequest(now: int, id: nat, approved: bool, approver: Text) returns (row: Option<Row>)
      modifies this
      ensures var pruned := Prune(old(rows), now);
              if id in pruned && pruned[id].status.Pending? then
                && row == Some(DecidedRow(pruned[id], approved, approver, now))
                && rows == pruned[id := row.value]
              else row == None && rows == pruned
    {
      var existing := GetApprovalRequest(now, id);
      if existing.None? || !existing.value.status.Pending? {
        return None;
      }
      var decided := DecidedRow(existing.value, approved, approver, now);
      rows := rows[id := decided];
      row := Some(decided);
    }

    method VerifyApprovalGrant(now: int, id: nat, subject: Subject) returns (row: Option<Row>)
      modifies this
      ensures rows == Prune(old(rows), now)
      ensures row.Some? <==> Granted(old(rows), now, id, subject)
      ensures row.Some? ==> id in rows && row.value == rows[id]
    {
      PruneExpiredApprovalRequests(now);
      if id in rows && rows[id].status.Approved? && rows[id].subject == subject && rows[id].expiresAt > now {
        return Some(rows[id]);
      }
      row := None;
    }
  }

  /** Pruning twice at one time is pruning once. */
  lemma PruneTwice(rows: Rows, now: int)
    ensures Prune(Prune(rows, now), now) == Prune(rows, now)
  {
  }

  function Rank(role: Role): nat {
    match role
    case Owner => 0
    case Admin => 1
    case Approver => 2
    case Operator => 3
    case Developer => 4
    case Viewer => 5
  }

  datatype GateAnswer = Open | InvalidApproval | ApprovalRequired(id: nat)

  class GovernanceRuntime {
    var policy: Policy
    const store: GovernanceStore

    constructor (policy: Policy)
      ensures this.policy == policy && fresh(store) && store.rows == map[]
    {
      this.policy := policy;
      store := new GovernanceStore();
    }

    /** A reload of the configuration (src/gateway/gateway.ts:398-410) replaces the policy and keeps the rows. */
    method Reload(newPolicy: Policy)
      modifies this
      ensures policy == newPolicy
    {
      policy := newPolicy;
    }

    /** The roles of a client in a workspace, without repetition and in the fixed order of roles. */
    method GetRolesForClient(workspaceId: Text, clientId: Text) returns (roles: seq<Role>)
      ensures forall role :: role in roles <==> Holds(policy.bindings, workspaceId, clientId, role)
      ensures forall i, j :: 0 <= i < j < |roles| ==> Rank(roles[i]) < Rank(roles[j])
    {
      var found: set<Role> := {};
      for i := 0 to |policy.bindings|
        invariant forall role :: role in found <==>
                    exists k :: 0 <= k < i && Grants(policy.bindings[k], workspaceId, clientId, role)
      {
        var binding := policy.bindings[i];
        if binding.workspaceId == workspaceId {
          if exists j :: 0 <= j < |binding.clients| && MatchesPattern(binding.clients[j], clientId) {
            found := found + {binding.role};
          }
        }
      }
      roles := InOrder(found);
    }

    static method InOrder(found: set<Role>) returns (roles: seq<Role>)
      ensures forall role :: role in roles <==> role in found
      ensures forall i, j :: 0 <= i < j < |roles| ==> Rank(roles[i]) < Rank(roles[j])
    {
      roles := [];
      for i := 0 to |WORKSPACE_ROLES|
        invariant forall role :: role in roles <==> role in found && Rank(role) < i
        invariant forall j, k :: 0 <= j < k < |roles| ==> Rank(roles[j]) < Rank(roles[k])
      {
        assert Rank(WORKSPACE_ROLES[i]) == i;
        assert forall role :: Rank(role) == i <==> role == WORKSPACE_ROLES[i];
        if WORKSPACE_ROLES[i] in found {
          assert forall j :: 0 <= j < |roles| ==> roles[j] in roles;
          roles := roles + [WORKSPACE_ROLES[i]];
        }
      }
    }

    method CreateApprovalRequest(now: int, call: Call, freshId: nat) returns (id: nat)
      requires freshId !in store.rows
      modifies store
      ensures store.rows == AfterCreate(old(store.rows), now, SubjectOf(call), ExpiryOf(policy, now), freshId)
      ensures id in store.rows && store.rows[id].subject == SubjectOf(call)
    {
      hide AfterCreate, SubjectOf;
      var ttlSeconds := GetOr(policy.ttlSeconds, DEFAULT_APPROVAL_TTL_SECONDS);
      var row;
      id, row := store.CreateOrReuseApprovalRequest(now, SubjectOf(call), now + ttlSeconds * 1000, freshId);
    }

    /** Refused with the first objection, or decided. */
    method DecideApproval(now: int, id: nat, approver: Text, approved: bool, principal: Option<Text>)
      returns (error: Option<DecideError>)
      modifies store
      ensures error == Objection(policy, Prune(old(store.rows), now), id, approver, principal)
      ensures error.None?
              <==> var pruned := Prune(old(store.rows), now);
                   && id in pruned && pruned[id].status == Pending && (principal.Some? ==> principal.value == approver)
                   && HoldsRequired(policy, pruned[id].subject.workspaceId, approver)
                   && (policy.allowSelfApproval == Some(true) || pruned[id].subject.requester != approver)
      ensures store.rows == Next(Desk(now, old(store.rows)),
                                 Decide(now, policy, id, approved, approver, principal)).rows
    {
      PruneTwice(store.rows, now);
      ObjectionExactly(policy, Prune(store.rows, now), id, approver, principal);
      if id in Prune(store.rows, now) { MayDecideExactly(policy, Prune(store.rows, now)[id].subject, approver); }
      hide Prune, Holds, HoldsRequired;
      var existing := store.GetApprovalRequest(now, id);
      if existing.None? {
        return Some(NotFound);
      }
      if !existing.value.status.Pending? {
        return Some(AlreadyDecided(existing.value.status));
      }
      if principal.Some? && principal.value != approver {
        return Some(Impersonation);
      }
      var requiredRoles := GetOr(policy.requiredRoles, DEFAULT_APPROVER_ROLES);
      var approverRoles := GetRolesForClient(existing.value.subject.workspaceId, approver);
      if !exists i :: 0 <= i < |requiredRoles| && requiredRoles[i] in approverRoles {
        return Some(NotAnApprover);
      }
      if !GetOr(policy.allowSelfApproval, false) && existing.value.subject.requester == approver {
        return Some(SelfApproval);
      }
      var row := store.DecideRequest(now, id, approved, approver);
      error := None;
    }

    /** The gate of the pipeline: a call passes only with an approval id that is granted for it. */
    method EnforceApprovalRequirement(now: int, provided: Option<nat>, call: Call,
                                      freshId: nat) returns (answer: GateAnswer)
      requires freshId !in store.rows
      modifies store
      ensures store.rows == Next(Desk(now, old(store.rows)), Gate(now, policy, provided, call, freshId)).rows
      ensures answer.Open? <==> provided.Some? && Granted(old(store.rows), now, provided.value, SubjectOf(call))
      ensures answer.InvalidApproval?
              <==> provided.Some? && !Granted(old(store.rows), now, provided.value, SubjectOf(call))
      ensures provided.None? ==>
                answer.ApprovalRequired? && answer.id in store.rows && store.rows[answer.id].subject == SubjectOf(call)
    {
      hide AfterCreate, SubjectOf, Prune;
      if provided.Some? {
        var approved := store.VerifyApprovalGrant(now, provided.value, SubjectOf(call));
        if approved.Some? {
          return Open;
        }
        return InvalidApproval;
      }
      var id := CreateApprovalRequest(now, call, freshId);
      answer := ApprovalRequired(id);
    }
  }
}
