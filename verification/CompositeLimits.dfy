/**
 Composite rate limits (src/rate-limit/rate-limiter.ts): the checks that apply to one request, and
 many `evaluateChecks` calls running at once. The source awaits every limiter call, so between two
 checks of one request any other request may run; a call is modelled as a process whose steps
 interleave freely with those of all others.
 */
module CompositeLimits {
  import opened Numbers
  import opened Sequences
  import opened Wrappers
  import opened SlidingBucket
  import opened SlidingWindow
  import opened BucketEviction

  const MS_PER_MINUTE: nat := 60_000
  const MS_PER_HOUR: nat := 3_600_000
  const MS_PER_DAY: nat := 86_400_000

  datatype Limits = Limits(perMinute: Option<int>, perHour: Option<int>, perDay: Option<int>)

  datatype Override = Override(server: string, limits: Limits, perTool: map<string, Limits>)

  datatype Config = Config(global: Option<Limits>, perClient: Option<Limits>, overrides: seq<Override>)

  datatype LimitCheck = LimitCheck(key: string, limit: int, window: nat, name: string)

  // ---------------------------------------------------------------------------------------------
  // The checks of one request

  function BuildChecks(key: string, limits: Limits, name: string): seq<LimitCheck> {
    (if limits.perMinute.Some? then [LimitCheck(key, limits.perMinute.value, MS_PER_MINUTE, name + "/minute")] else [])
    + (if limits.perHour.Some? then [LimitCheck(key, limits.perHour.value, MS_PER_HOUR, name + "/heure")] else [])
    + (if limits.perDay.Some? then [LimitCheck(key, limits.perDay.value, MS_PER_DAY, name + "/jour")] else [])
  }

  function ClientKey(client: string): string {
    "client:" + client
  }

  function ServerKey(server: string): string {
    "server:" + server
  }

  function ToolKey(server: string, tool: string): string {
    ServerKey(server) + ":tool:" + tool
  }

  function SpecificKey(client: string, server: string, tool: string): string {
    ClientKey(client) + ":server:" + server + ":tool:" + tool
  }

  function GetClientChecks(config: Config, client: string): seq<LimitCheck> {
    (if config.global.Some? then BuildChecks("global", config.global.value, "global") else [])
    + (if config.perClient.Some? then BuildChecks(ClientKey(client), config.perClient.value, "client") else [])
  }

  /** The first override of a server, as `find` returns it. */
  function FindOverride(overrides: seq<Override>, server: string): Option<Override> {
    if overrides == [] then None
    else if overrides[0].server == server then Some(overrides[0])
    else FindOverride(overrides[1..], server)
  }

  function ToolChecks(o: Override, server: string, tool: string): seq<LimitCheck> {
    if tool != "" && tool in o.perTool then BuildChecks(ToolKey(server, tool), o.perTool[tool], "tool") else []
  }

  function SpecificChecks(o: Override, client: string, server: string, tool: string): seq<LimitCheck> {
    if tool != "" then BuildChecks(SpecificKey(client, server, tool), o.limits, "client-server-tool") else []
  }

  function GetServerChecks(config: Config, client: string, server: string, tool: string): seq<LimitCheck> {
    match FindOverride(config.overrides, server)
    case None => []
    case Some(o) =>
      BuildChecks(ServerKey(server), o.limits, "server")
      + ToolChecks(o, server, tool) + SpecificChecks(o, client, server, tool)
  }

  function GetChecks(config: Config, client: string, server: string, tool: string): seq<LimitCheck> {
    GetClientChecks(config, client) + GetServerChecks(config, client, server, tool)
  }

  // ---------------------------------------------------------------------------------------------
  // Which checks these are

  /** The limits of a configuration and the windows they belong to. */
  predicate Limited(limits: Limits, limit: int, window: nat) {
    || (limits.perMinute == Some(limit) && window == 60_000)
    || (limits.perHour == Some(limit) && window == 3_600_000)
    || (limits.perDay == Some(limit) && window == 86_400_000)
  }

  /** `i` is the first override of the server. */
  predicate IsFirstOverride(overrides: seq<Override>, server: string, i: int) {
    0 <= i < |overrides| && overrides[i].server == server && forall j :: 0 <= j < i ==> overrides[j].server != server
  }

  /** The limits that the configuration sets for a request, each with the key that it is counted under. */
  ghost predicate Applies(config: Config, client: string, server: string, tool: string, key: string, limits: Limits) {
    || AppliesToClient(config, client, key, limits)
    || AppliesToServer(config, client, server, tool, key, limits)
  }

  predicate AppliesToClient(config: Config, client: string, key: string, limits: Limits) {
    || (config.global == Some(limits) && key == "global")
    || (config.perClient == Some(limits) && key == "client:" + client)
  }

  /** What an override sets: limits for the server, for one of its tools, and for each client on each tool. */
  predicate OfOverride(o: Override, client: string, server: string, tool: string, key: string, limits: Limits) {
    || (key == "server:" + server && limits == o.limits)
    || (tool != "" && tool in o.perTool && key == "server:" + server + ":tool:" + tool && limits == o.perTool[tool])
    || (tool != "" && key == "client:" + client + ":server:" + server + ":tool:" + tool && limits == o.limits)
  }

  ghost predicate AppliesToServer(config: Config, client: string, server: string, tool: string, key: string,
                                  limits: Limits)
  {
    exists i :: IsFirstOverride(config.overrides, server, i)
      && OfOverride(config.overrides[i], client, server, tool, key, limits)
  }

  lemma BuiltChecks(key: string, limits: Limits, name: string)
    ensures forall c: LimitCheck :: c in BuildChecks(key, limits, name) <==>
              && c.key == key && Limited(limits, c.limit, c.window)
              && c.name == name + (if c.window == 60_000 then "/minute" else if c.window == 3_600_000 then "/heure"
                                   else "/jour")
  {
  }

  /** The keys and limits that a list of checks is built from. */
  ghost predicate ChecksFor(checks: seq<LimitCheck>, applies: (string, Limits) -> bool) {
    && (forall c :: c in checks ==> exists limits :: applies(c.key, limits) && Limited(limits, c.limit, c.window))
    && (forall key, limits, limit, window :: applies(key, limits) && Limited(limits, limit, window) ==>
          exists c :: c in checks && c.key == key && c.limit == limit && c.window == window)
  }

  lemma BuiltFor(key: string, limits: Limits, name: string)
    ensures ChecksFor(BuildChecks(key, limits, name), (k, l) => k == key && l == limits)
  {
    var checks := BuildChecks(key, limits, name);
    hide Limited;
    forall c | c in checks ensures Limited(limits, c.limit, c.window) && c.key == key {
      BuiltChecks(key, limits, name);
    }
    forall limit, window | Limited(limits, limit, window)
      ensures exists c :: c in checks && c.key == key && c.limit == limit && c.window == window
    {
      BuiltChecks(key, limits, name);
      var suffix := if window == 60_000 then "/minute" else if window == 3_600_000 then "/heure" else "/jour";
      assert LimitCheck(key, limit, window, name + suffix) in checks;
    }
  }

  lemma ConcatFor(a: seq<LimitCheck>, forA: (string, Limits) -> bool, b: seq<LimitCheck>,
                  forB: (string, Limits) -> bool)
    requires ChecksFor(a, forA) && ChecksFor(b, forB)
    ensures ChecksFor(a + b, (k, l) => forA(k, l) || forB(k, l))
  {
    hide Limited;
  }

  lemma NothingFor()
    ensures ChecksFor([], (k, l) => false)
  {
  }

  lemma SameFor(checks: seq<LimitCheck>, p: (string, Limits) -> bool, q: (string, Limits) -> bool)
    requires ChecksFor(checks, p) && forall k, l :: p(k, l) <==> q(k, l)
    ensures ChecksFor(checks, q)
  {
    hide Limited;
  }

  /** The checks of the client side are the global limits and those of every client. */
  lemma ClientChecksFor(config: Config, client: string)
    ensures ChecksFor(GetClientChecks(config, client), (k, l) => AppliesToClient(config, client, k, l))
  {
    hide BuildChecks, ChecksFor;
    var a := if config.global.Some? then BuildChecks("global", config.global.value, "global") else [];
    var b := if config.perClient.Some? then BuildChecks(ClientKey(client), config.perClient.value, "client") else [];
    var forA := (k, l) => config.global == Some(l) && k == "global";
    var forB := (k, l) => config.perClient == Some(l) && k == "client:" + client;
    OptionalFor(config.global, "global", "global", forA);
    OptionalFor(config.perClient, ClientKey(client), "client", forB);
    ConcatFor(a, forA, b, forB);
    SameFor(a + b, (k, l) => forA(k, l) || forB(k, l), (k, l) => AppliesToClient(config, client, k, l));
  }

  lemma OptionalFor(limits: Option<Limits>, key: string, name: string, applies: (string, Limits) -> bool)
    requires forall k, l :: applies(k, l) <==> limits == Some(l) && k == key
    ensures ChecksFor(if limits.Some? then BuildChecks(key, limits.value, name) else [], applies)
  {
    hide BuildChecks, ChecksFor;
    if limits.Some? {
      BuiltFor(key, limits.value, name);
      SameFor(BuildChecks(key, limits.value, name), (k, l) => k == key && l == limits.value, applies);
    } else {
      NothingFor();
      SameFor([], (k, l) => false, applies);
    }
  }

  lemma {:induction false} FoundOverride(overrides: seq<Override>, server: string)
    ensures match FindOverride(overrides, server)
            case Some(o) => exists i :: IsFirstOverride(overrides, server, i) && overrides[i] == o
            case None => forall i :: !IsFirstOverride(overrides, server, i)
  {
    if overrides != [] {
      FoundOverride(overrides[1..], server);
      if overrides[0].server == server {
        assert IsFirstOverride(overrides, server, 0);
      } else {
        forall i ensures IsFirstOverride(overrides, server, i) <==> IsFirstOverride(overrides[1..], server, i - 1) {
          assert 1 <= i < |overrides| ==> overrides[i] == overrides[1..][i - 1];
          assert IsFirstOverride(overrides[1..], server, i - 1) ==>
              forall j :: 1 <= j < i ==> overrides[j] == overrides[1..][j - 1];
          assert forall j :: 0 <= j < i - 1 && i <= |overrides| ==> overrides[1..][j] == overrides[j + 1];
        }
        if FindOverride(overrides, server).Some? {
          var i :| IsFirstOverride(overrides[1..], server, i)
              && overrides[1..][i] == FindOverride(overrides, server).value;
          assert IsFirstOverride(overrides, server, i + 1);
        }
      }
    }
  }

  lemma OneFirstOverride(overrides: seq<Override>, server: string, i: int, j: int)
    requires IsFirstOverride(overrides, server, i) && IsFirstOverride(overrides, server, j)
    ensures i == j
  {
  }

  /** Those of the server side come from the first override of the server: its limits, its tool's, its client's. */
  lemma ServerChecksFor(config: Config, client: string, server: string, tool: string)
    ensures ChecksFor(GetServerChecks(config, client, server, tool),
                      (k, l) => AppliesToServer(config, client, server, tool, k, l))
  {
    FoundOverride(config.overrides, server);
    hide BuildChecks, ChecksFor, OfOverride, ToolChecks, SpecificChecks;
    var applies := (k, l) => AppliesToServer(config, client, server, tool, k, l);
    match FindOverride(config.overrides, server)
    case None =>
      NothingFor();
      SameFor([], (k, l) => false, applies);
    case Some(o) =>
      OverrideChecksFor(o, client, server, tool);
      var i :| IsFirstOverride(config.overrides, server, i) && config.overrides[i] == o;
      forall j | IsFirstOverride(config.overrides, server, j) ensures j == i {
        OneFirstOverride(config.overrides, server, i, j);
      }
      SameFor(GetServerChecks(config, client, server, tool), (k, l) => OfOverride(o, client, server, tool, k, l),
              applies);
  }

  lemma OverrideChecksFor(o: Override, client: string, server: string, tool: string)
    ensures ChecksFor(BuildChecks(ServerKey(server), o.limits, "server") + ToolChecks(o, server, tool)
                      + SpecificChecks(o, client, server, tool),
                      (k, l) => OfOverride(o, client, server, tool, k, l))
  {
    hide BuildChecks, ChecksFor;
    var forA := (k, l) => k == ServerKey(server) && l == o.limits;
    var forB := (k, l) => tool != "" && tool in o.perTool && k == ToolKey(server, tool) && l == o.perTool[tool];
    var forC := (k, l) => tool != "" && k == SpecificKey(client, server, tool) && l == o.limits;
    var a := BuildChecks(ServerKey(server), o.limits, "server");
    var b, c := ToolChecks(o, server, tool), SpecificChecks(o, client, server, tool);
    BuiltFor(ServerKey(server), o.limits, "server");
    SameFor(a, (k, l) => k == ServerKey(server) && l == o.limits, forA);
    OptionalFor(if tool != "" && tool in o.perTool then Some(o.perTool[tool]) else None, ToolKey(server, tool), "tool",
                forB);
    OptionalFor(if tool != "" then Some(o.limits) else None, SpecificKey(client, server, tool), "client-server-tool",
                forC);
    var forAB := (k, l) => forA(k, l) || forB(k, l);
    ConcatFor(a, forA, b, forB);
    SameFor(a + b, (k, l) => forA(k, l) || forB(k, l), forAB);
    ConcatFor(a + b, forAB, c, forC);
    SameFor(a + b + c, (k, l) => forAB(k, l) || forC(k, l), (k, l) => OfOverride(o, client, server, tool, k, l));
  }

  /** A request is checked against all limits that the configuration sets for it, in their windows, and no others. */
  lemma RequestChecksFor(config: Config, client: string, server: string, tool: string)
    ensures ChecksFor(GetChecks(config, client, server, tool),
                      (k, l) => Applies(config, client, server, tool, k, l))
  {
    ClientChecksFor(config, client);
    ServerChecksFor(config, client, server, tool);
    hide GetClientChecks, GetServerChecks, ChecksFor, AppliesToClient, AppliesToServer;
    var forA := (k, l) => AppliesToClient(config, client, k, l);
    var forB := (k, l) => AppliesToServer(config, client, server, tool, k, l);
    var a, b := GetClientChecks(config, client), GetServerChecks(config, client, server, tool);
    ConcatFor(a, forA, b, forB);
    SameFor(a + b, (k, l) => forA(k, l) || forB(k, l), (k, l) => Applies(config, client, server, tool, k, l));
  }

  function BucketOf(check: LimitCheck): BucketKey {
    StorageKey(check.key, check.window)
  }

  ghost predicate DistinctBuckets(checks: seq<LimitCheck>) {
    forall i, j :: 0 <= i < j < |checks| ==> BucketOf(checks[i]) != BucketOf(checks[j])
  }

  ghost predicate AllOn(checks: seq<LimitCheck>, keys: set<string>) {
    forall i :: 0 <= i < |checks| ==> checks[i].key in keys
  }

  lemma BuildChecksDistinct(key: string, limits: Limits, name: string)
    ensures DistinctBuckets(BuildChecks(key, limits, name)) && AllOn(BuildChecks(key, limits, name), {key})
  {
    StorageKeyInjective(key, MS_PER_MINUTE, key, MS_PER_HOUR);
    StorageKeyInjective(key, MS_PER_MINUTE, key, MS_PER_DAY);
    StorageKeyInjective(key, MS_PER_HOUR, key, MS_PER_DAY);
    hide StorageKey;
  }

  lemma ConcatDistinct(a: seq<LimitCheck>, keysA: set<string>, b: seq<LimitCheck>, keysB: set<string>)
    requires DistinctBuckets(a) && AllOn(a, keysA) && DistinctBuckets(b) && AllOn(b, keysB)
    requires keysA !! keysB
    ensures DistinctBuckets(a + b) && AllOn(a + b, keysA + keysB)
  {
    var c := a + b;
    forall i, j | 0 <= i < j < |c| ensures BucketOf(c[i]) != BucketOf(c[j]) {
      if i < |a| <= j {
        assert c[i].key in keysA && c[j].key in keysB;
        StorageKeyInjective(c[i].key, c[i].window, c[j].key, c[j].window);
      }
    }
  }

  lemma KeysDiffer(client: string, server: string, tool: string)
    ensures "global" !in {ClientKey(client), ServerKey(server), ToolKey(server, tool),
                          SpecificKey(client, server, tool)}
    ensures ClientKey(client) !in {ServerKey(server), ToolKey(server, tool), SpecificKey(client, server, tool)}
    ensures ServerKey(server) !in {ToolKey(server, tool), SpecificKey(client, server, tool)}
    ensures ToolKey(server, tool) != SpecificKey(client, server, tool)
  {
    assert "global"[0] == 'g' && ClientKey(client)[0] == 'c' && ServerKey(server)[0] == 's';
    assert ToolKey(server, tool)[0] == 's' && SpecificKey(client, server, tool)[0] == 'c';
    assert |SpecificKey(client, server, tool)| > |ClientKey(client)| && |ToolKey(server, tool)| > |ServerKey(server)|;
  }

  /** The checks of one request always concern pairwise distinct buckets, whatever the names contain. */
  lemma ChecksDistinct(config: Config, client: string, server: string, tool: string)
    ensures DistinctBuckets(GetChecks(config, client, server, tool))
    ensures DistinctBuckets(GetClientChecks(config, client))
    ensures DistinctBuckets(GetServerChecks(config, client, server, tool))
  {
    KeysDiffer(client, server, tool);
    ClientChecksDistinct(config, client);
    ServerChecksDistinct(config, client, server, tool);
    hide GetClientChecks, GetServerChecks, DistinctBuckets, AllOn, ClientKey, ServerKey, ToolKey, SpecificKey;
    ConcatDistinct(GetClientChecks(config, client), {"global", ClientKey(client)},
                   GetServerChecks(config, client, server, tool),
                   {ServerKey(server), ToolKey(server, tool), SpecificKey(client, server, tool)});
  }

  lemma ClientChecksDistinct(config: Config, client: string)
    ensures DistinctBuckets(GetClientChecks(config, client))
    ensures AllOn(GetClientChecks(config, client), {"global", ClientKey(client)})
  {
    var a := if config.global.Some? then BuildChecks("global", config.global.value, "global") else [];
    var b := if config.perClient.Some? then BuildChecks(ClientKey(client), config.perClient.value, "client") else [];
    KeysDiffer(client, "", "");
    if config.global.Some? { BuildChecksDistinct("global", config.global.value, "global"); }
    if config.perClient.Some? { BuildChecksDistinct(ClientKey(client), config.perClient.value, "client"); }
    hide BuildChecks, ClientKey;
    ConcatDistinct(a, {"global"}, b, {ClientKey(client)});
    assert {"global"} + {ClientKey(client)} == {"global", ClientKey(client)};
  }

  lemma ServerChecksDistinct(config: Config, client: string, server: string, tool: string)
    ensures DistinctBuckets(GetServerChecks(config, client, server, tool))
    ensures AllOn(GetServerChecks(config, client, server, tool),
                  {ServerKey(server), ToolKey(server, tool), SpecificKey(client, server, tool)})
  {
    match FindOverride(config.overrides, server)
    case None =>
    case Some(o) =>
      var a := BuildChecks(ServerKey(server), o.limits, "server");
      var b, c := ToolChecks(o, server, tool), SpecificChecks(o, client, server, tool);
      BuildChecksDistinct(ServerKey(server), o.limits, "server");
      if tool != "" {
        BuildChecksDistinct(SpecificKey(client, server, tool), o.limits, "client-server-tool");
        if tool in o.perTool { BuildChecksDistinct(ToolKey(server, tool), o.perTool[tool], "tool"); }
      }
      KeysDiffer(client, server, tool);
      hide BuildChecks, ServerKey, ToolKey, SpecificKey;
      ConcatDistinct(a, {ServerKey(server)}, b, {ToolKey(server, tool)});
      ConcatDistinct(a + b, {ServerKey(server)} + {ToolKey(server, tool)}, c, {SpecificKey(client, server, tool)});
      assert {ServerKey(server)} + {ToolKey(server, tool)} + {SpecificKey(client, server, tool)}
          == {ServerKey(server), ToolKey(server, tool), SpecificKey(client, server, tool)};
  }

  // ---------------------------------------------------------------------------------------------
  // Their order, which decides who denies a request and what it was charged for before

  /** From the limits of everybody to those of one client on one tool. */
  function Rank(key: string, client: string, server: string, tool: string): nat {
    if key == "global" then 0
    else if key == "client:" + client then 1
    else if key == "server:" + server then 2
    else if key == "server:" + server + ":tool:" + tool then 3
    else 4
  }

  /** The ranks of these checks lie between `lo` and `hi` and go up, and for one key the windows do. */
  ghost predicate Ordered(checks: seq<LimitCheck>, client: string, server: string, tool: string, lo: int, hi: int) {
    && (forall i :: 0 <= i < |checks| ==> lo <= Rank(checks[i].key, client, server, tool) <= hi)
    && (forall i, j :: 0 <= i < j < |checks| ==>
          var a, b := checks[i], checks[j];
          || Rank(a.key, client, server, tool) < Rank(b.key, client, server, tool)
          || (a.key == b.key && a.window < b.window))
  }

  lemma BuiltInOrder(key: string, limits: Option<Limits>, name: string, client: string, server: string, tool: string)
    ensures var rank := Rank(key, client, server, tool);
            Ordered(if limits.Some? then BuildChecks(key, limits.value, name) else [], client, server, tool, rank, rank)
  {
    hide Rank;
  }

  lemma ConcatInOrder(a: seq<LimitCheck>, b: seq<LimitCheck>, client: string, server: string, tool: string, lo: int,
                      mid: int, hi: int)
    requires Ordered(a, client, server, tool, lo, mid) && Ordered(b, client, server, tool, mid + 1, hi)
    requires lo <= mid + 1 <= hi + 1
    ensures Ordered(a + b, client, server, tool, lo, hi)
  {
    hide Rank;
  }

  lemma RanksOfKeys(client: string, server: string, tool: string)
    ensures Rank("global", client, server, tool) == 0
    ensures Rank(ClientKey(client), client, server, tool) == 1
    ensures Rank(ServerKey(server), client, server, tool) == 2
    ensures Rank(ToolKey(server, tool), client, server, tool) == 3
    ensures Rank(SpecificKey(client, server, tool), client, server, tool) == 4
  {
    KeysDiffer(client, server, tool);
  }

  /** Limits of the client side come before those of the server side, broad before narrow, and short before long. */
  lemma ChecksInOrder(config: Config, client: string, server: string, tool: string)
    ensures Ordered(GetChecks(config, client, server, tool), client, server, tool, 0, 4)
  {
    RanksOfKeys(client, server, tool);
    hide BuildChecks, Rank, Ordered, ClientKey, ServerKey, ToolKey, SpecificKey, FindOverride;
    BuiltInOrder("global", config.global, "global", client, server, tool);
    BuiltInOrder(ClientKey(client), config.perClient, "client", client, server, tool);
    ConcatInOrder(if config.global.Some? then BuildChecks("global", config.global.value, "global") else [],
                  if config.perClient.Some? then BuildChecks(ClientKey(client), config.perClient.value, "client")
                  else [],
                  client, server, tool, 0, 0, 1);
    var found := FindOverride(config.overrides, server);
    if found.Some? {
      var o := found.value;
      var a, b, c := BuildChecks(ServerKey(server), o.limits, "server"), ToolChecks(o, server, tool),
                     SpecificChecks(o, client, server, tool);
      BuiltInOrder(ServerKey(server), Some(o.limits), "server", client, server, tool);
      BuiltInOrder(ToolKey(server, tool), if tool != "" && tool in o.perTool then Some(o.perTool[tool]) else None,
                   "tool", client, server, tool);
      BuiltInOrder(SpecificKey(client, server, tool), if tool != "" then Some(o.limits) else None,
                   "client-server-tool", client, server, tool);
      ConcatInOrder(a, b, client, server, tool, 2, 2, 3);
      ConcatInOrder(a + b, c, client, server, tool, 2, 3, 4);
    } else {
      NoneInOrder(client, server, tool);
    }
    ConcatInOrder(GetClientChecks(config, client), GetServerChecks(config, client, server, tool), client, server, tool,
                  0, 1, 4);
  }

  lemma NoneInOrder(client: string, server: string, tool: string)
    ensures Ordered([], client, server, tool, 2, 4)
  {
  }

  // ---------------------------------------------------------------------------------------------
  // The least remaining quota

  predicate IsFirstLeast(results: seq<Answer>, i: int) {
    && 0 <= i < |results|
    && (forall j :: 0 <= j < |results| ==> results[i].remaining <= results[j].remaining)
    && (forall j :: 0 <= j < i ==> results[i].remaining < results[j].remaining)
  }

  /** The first answer with the least remaining quota, if there are answers at all. */
  ghost predicate IsBest(results: seq<Answer>, best: Option<Answer>) {
    && (best.None? <==> results == [])
    && (best.Some? ==> exists i :: IsFirstLeast(results, i) && best.value == results[i].(allowed := true))
  }

  /** The loop that follows a fully allowed request. */
  method MostRestrictive(results: seq<Answer>) returns (best: Option<Answer>)
    ensures IsBest(results, best)
  {
    best := None;
    ghost var at := 0;
    for k := 0 to |results|
      invariant best.None? <==> k == 0
      invariant best.Some? ==> at < k && best.value == results[at].(allowed := true)
      invariant best.Some? ==> forall j :: 0 <= j < k ==> results[at].remaining <= results[j].remaining
      invariant best.Some? ==> forall j :: 0 <= j < at ==> results[at].remaining < results[j].remaining
    {
      if best.None? || results[k].remaining < best.value.remaining {
        best, at := Some(results[k].(allowed := true)), k;
      }
    }
    assert best.Some? ==> IsFirstLeast(results, at);
  }

  // ---------------------------------------------------------------------------------------------
  // Many requests at once

  type Pid = nat

  datatype Verdict = Undecided | Allowed | Denied

  /** A consuming `evaluateChecks` call: `next` is the check it turns to when it resumes. */
  datatype Process = Process(checks: seq<LimitCheck>, next: nat, verdict: Verdict)

  datatype System = System(limiter: State, processes: map<Pid, Process>)

  datatype Step =
    | Begin(pid: Pid, checks: seq<LimitCheck>)
    | Advance(pid: Pid, t0: int, t1: int)
    | Other(op: Op)

  /** A sequence of steps, the latest outermost. `Other` is anything else that uses the limiter. */
  datatype Trace = Nothing | Followed(past: Trace, last: Step)

  const NO_REQUESTS: System := System(EMPTY, map[])

  function ConsumeOf(check: LimitCheck, t0: int, t1: int): Op {
    ConsumeOp(check.key, check.limit, check.window, t0, t1)
  }

  predicate Enabled(sys: System, step: Step) {
    match step
    case Begin(pid, _) => pid !in sys.processes
    case Advance(pid, _, _) =>
      && pid in sys.processes
      && sys.processes[pid].verdict == Undecided && sys.processes[pid].next < |sys.processes[pid].checks|
    case Other(_) => true
  }

  function Begun(checks: seq<LimitCheck>): Process {
    Process(checks, 0, if checks == [] then Allowed else Undecided)
  }

  function AfterCheck(p: Process, allowed: bool): Process {
    if !allowed then p.(verdict := Denied)
    else if p.next + 1 < |p.checks| then p.(next := p.next + 1)
    else p.(next := p.next + 1, verdict := Allowed)
  }

  function After(sys: System, maxBuckets: nat, step: Step): System
    requires Enabled(sys, step)
  {
    match step
    case Begin(pid, checks) => sys.(processes := sys.processes[pid := Begun(checks)])
    case Advance(pid, t0, t1) =>
      var p := sys.processes[pid];
      var op := ConsumeOf(p.checks[p.next], t0, t1);
      System(Apply(sys.limiter, maxBuckets, op), sys.processes[pid := AfterCheck(p, AnswerOf(sys.limiter, op).allowed)])
    case Other(op) => sys.(limiter := Apply(sys.limiter, maxBuckets, op))
  }

  ghost predicate Legal(maxBuckets: nat, trace: Trace)
    decreases trace, 0
  {
    match trace
    case Nothing => true
    case Followed(past, last) => Legal(maxBuckets, past) && Enabled(Reached(maxBuckets, past), last)
  }

  function Reached(maxBuckets: nat, trace: Trace): System
    requires Legal(maxBuckets, trace)
    decreases trace, 1
  {
    match trace
    case Nothing => NO_REQUESTS
    case Followed(past, last) => After(Reached(maxBuckets, past), maxBuckets, last)
  }

  /** The operation of a step on the limiter, if it has one. */
  function OpOf(sys: System, step: Step): Option<Op>
    requires Enabled(sys, step)
  {
    match step
    case Begin(_, _) => None
    case Advance(pid, t0, t1) => Some(ConsumeOf(sys.processes[pid].checks[sys.processes[pid].next], t0, t1))
    case Other(op) => Some(op)
  }

  /** The run of the limiter underneath a trace. */
  function RunOf(maxBuckets: nat, trace: Trace): Run
    requires Legal(maxBuckets, trace)
  {
    match trace
    case Nothing => Start
    case Followed(past, last) =>
      match OpOf(Reached(maxBuckets, past), last)
      case None => RunOf(maxBuckets, past)
      case Some(op) => Then(RunOf(maxBuckets, past), op)
  }

  /** Whether a step of a request adds a timestamp to a bucket. */
  predicate Stamps(sys: System, step: Step, pid: Pid)
    requires Enabled(sys, step)
  {
    step.Advance? && step.pid == pid && AnswerOf(sys.limiter, OpOf(sys, step).value).allowed
  }

  /** The buckets that a request has added a timestamp to, in order and with repetitions. */
  function StampedBy(maxBuckets: nat, trace: Trace, pid: Pid): seq<BucketKey>
    requires Legal(maxBuckets, trace)
  {
    match trace
    case Nothing => []
    case Followed(past, last) =>
      var sys := Reached(maxBuckets, past);
      StampedBy(maxBuckets, past, pid)
      + if Stamps(sys, last, pid) then [BucketOf(sys.processes[pid].checks[sys.processes[pid].next])] else []
  }

  function Buckets(checks: seq<LimitCheck>): seq<BucketKey> {
    seq(|checks|, i requires 0 <= i < |checks| => BucketOf(checks[i]))
  }

  lemma {:induction false} LimiterOfTrace(maxBuckets: nat, trace: Trace)
    requires Legal(maxBuckets, trace)
    ensures Reached(maxBuckets, trace).limiter == Final(EMPTY, maxBuckets, RunOf(maxBuckets, trace))
  {
    hide Apply, AnswerOf;
    match trace
    case Nothing =>
    case Followed(past, last) => LimiterOfTrace(maxBuckets, past);
  }

  lemma StampedStep(maxBuckets: nat, past: Trace, last: Step, pid: Pid, p: Process)
    requires Legal(maxBuckets, Followed(past, last))
    requires last.Advance? && last.pid == pid && Reached(maxBuckets, past).processes[pid] == p
    requires StampedBy(maxBuckets, past, pid) == Buckets(p.checks[..p.next])
    ensures var op := ConsumeOf(p.checks[p.next], last.t0, last.t1);
            var next := AfterCheck(p, AnswerOf(Reached(maxBuckets, past).limiter, op).allowed).next;
            StampedBy(maxBuckets, Followed(past, last), pid) == Buckets(p.checks[..next])
  {
    hide Apply, AnswerOf, Buckets, BucketOf;
    OneMoreBucket(p.checks, p.next);
    AppendNothing(StampedBy(maxBuckets, past, pid));
  }

  lemma OneMoreBucket(checks: seq<LimitCheck>, n: nat)
    requires n < |checks|
    ensures Buckets(checks[..n + 1]) == Buckets(checks[..n]) + [BucketOf(checks[n])]
  {
  }

  /**
   What every request has consumed, in every interleaving: one timestamp for each of the checks it has
   passed, in order, and none else. An allowed request passed all of its checks; a denied one passed
   exactly those before the check that denied it, and keeps their timestamps.
   */
  lemma {:induction false} StampsOfRequest(maxBuckets: nat, trace: Trace, pid: Pid)
    requires Legal(maxBuckets, trace)
    ensures var sys := Reached(maxBuckets, trace);
            if pid in sys.processes then
              var p := sys.processes[pid];
              && p.next <= |p.checks|
              && StampedBy(maxBuckets, trace, pid) == Buckets(p.checks[..p.next])
              && (p.verdict == Allowed <==> p.next == |p.checks|)
            else StampedBy(maxBuckets, trace, pid) == []
  {
    hide Apply, AnswerOf, Buckets;
    match trace
    case Nothing =>
    case Followed(past, last) =>
      StampsOfRequest(maxBuckets, past, pid);
      var before := Reached(maxBuckets, past);
      match last
      case Begin(id, checks) =>
        if id == pid {
          NoBuckets(checks);
        }
      case Advance(id, _, _) =>
        if id == pid {
          StampedStep(maxBuckets, past, last, pid, before.processes[pid]);
        }
      case Other(_) =>
  }

  predicate BeganWith(trace: Trace, pid: Pid, checks: seq<LimitCheck>) {
    match trace
    case Nothing => false
    case Followed(past, last) => BeganWith(past, pid, checks) || last == Begin(pid, checks)
  }

  /** How many of its steps the limiter has admitted. */
  function Passed(maxBuckets: nat, trace: Trace, pid: Pid): nat
    requires Legal(maxBuckets, trace)
  {
    match trace
    case Nothing => 0
    case Followed(past, last) =>
      Passed(maxBuckets, past, pid) + if Stamps(Reached(maxBuckets, past), last, pid) then 1 else 0
  }

  predicate WasDenied(maxBuckets: nat, trace: Trace, pid: Pid)
    requires Legal(maxBuckets, trace)
  {
    match trace
    case Nothing => false
    case Followed(past, last) =>
      || WasDenied(maxBuckets, past, pid)
      || (last.Advance? && last.pid == pid && !Stamps(Reached(maxBuckets, past), last, pid))
  }

  /** A request is denied exactly by a check that is denied, and allowed exactly when all its checks have passed. */
  lemma {:induction false} VerdictExactly(maxBuckets: nat, trace: Trace, pid: Pid, checks: seq<LimitCheck>)
    requires Legal(maxBuckets, trace)
    ensures var processes := Reached(maxBuckets, trace).processes;
            && (pid in processes && processes[pid].checks == checks <==> BeganWith(trace, pid, checks))
            && (pid !in processes ==> Passed(maxBuckets, trace, pid) == 0 && !WasDenied(maxBuckets, trace, pid))
            && (pid in processes ==>
                  var p := processes[pid];
                  && p.next == Passed(maxBuckets, trace, pid) <= |p.checks|
                  && (p.verdict == Denied <==> WasDenied(maxBuckets, trace, pid))
                  && (p.verdict == Allowed <==> Passed(maxBuckets, trace, pid) == |p.checks|))
  {
    hide Apply, AnswerOf;
    match trace
    case Nothing =>
    case Followed(past, last) => VerdictExactly(maxBuckets, past, pid, checks);
  }

  /** No bucket is charged twice for one request, and exactly the passed checks are charged. */
  lemma StampsAreDistinct(maxBuckets: nat, trace: Trace, pid: Pid)
    requires Legal(maxBuckets, trace) && pid in Reached(maxBuckets, trace).processes
    requires DistinctBuckets(Reached(maxBuckets, trace).processes[pid].checks)
    ensures var p := Reached(maxBuckets, trace).processes[pid];
            && Distinct(StampedBy(maxBuckets, trace, pid))
            && (forall i :: 0 <= i < |p.checks| ==>
                  (BucketOf(p.checks[i]) in StampedBy(maxBuckets, trace, pid) <==> i < p.next))
  {
    StampsOfRequest(maxBuckets, trace, pid);
    hide Reached, StampedBy, BucketOf;
    var p := Reached(maxBuckets, trace).processes[pid];
    var stamps := StampedBy(maxBuckets, trace, pid);
    forall i | 0 <= i < |p.checks| ensures BucketOf(p.checks[i]) in stamps <==> i < p.next {
      if i < p.next {
        assert stamps[i] == BucketOf(p.checks[i]);
      }
    }
  }

  /** The checks that the limiter evaluates for a request: all of them, or those of its client or its server alone. */
  predicate ForRequest(checks: seq<LimitCheck>, config: Config, client: string, server: string, tool: string) {
    || checks == GetChecks(config, client, server, tool)
    || checks == GetClientChecks(config, client)
    || checks == GetServerChecks(config, client, server, tool)
  }

  /** A request of a client for a tool never charges a bucket twice, whatever the names contain. */
  lemma RequestChargedOnce(maxBuckets: nat, trace: Trace, pid: Pid, config: Config, client: string, server: string,
                           tool: string)
    requires Legal(maxBuckets, trace) && pid in Reached(maxBuckets, trace).processes
    requires ForRequest(Reached(maxBuckets, trace).processes[pid].checks, config, client, server, tool)
    ensures var p := Reached(maxBuckets, trace).processes[pid];
            && Distinct(StampedBy(maxBuckets, trace, pid))
            && (forall i :: 0 <= i < |p.checks| ==>
                  (BucketOf(p.checks[i]) in StampedBy(maxBuckets, trace, pid) <==> i < p.next))
  {
    hide Reached, StampedBy, BucketOf, GetChecks, GetClientChecks, GetServerChecks, DistinctBuckets;
    ChecksDistinct(config, client, server, tool);
    StampsAreDistinct(maxBuckets, trace, pid);
  }

  lemma NoBuckets(checks: seq<LimitCheck>)
    ensures Buckets(checks[..0]) == []
  {
  }

  // ---------------------------------------------------------------------------------------------
  // The loops of one request that nobody interrupts

  function OpFor(check: LimitCheck, consume: bool, now: int): (op: Op)
    ensures op.ConsumeOp? || op.CheckOp?
  {
    if consume then ConsumeOf(check, now, now) else CheckOp(check.key, check.limit, check.window, now, now)
  }

  /** `refusal` is the answer that denied the request, if one did. */
  datatype Progress = Progress(limiter: State, process: Process, refusal: Option<Answer>)

  /** A request that takes all its remaining steps in one go. */
  function RunAlone(lim: State, maxBuckets: nat, p: Process, consume: bool, now: int): Progress
    decreases |p.checks| - p.next
  {
    if p.verdict != Undecided || p.next >= |p.checks| then Progress(lim, p, None)
    else
      var op := OpFor(p.checks[p.next], consume, now);
      var answer := AnswerOf(lim, op);
      var next := AfterCheck(p, answer.allowed);
      if answer.allowed then RunAlone(Apply(lim, maxBuckets, op), maxBuckets, next, consume, now)
      else Progress(Apply(lim, maxBuckets, op), next, Some(answer))
  }

  /** The limiter after a check of each of the first `n` limits, and the answers these gave. */
  function Looked(lim: State, maxBuckets: nat, checks: seq<LimitCheck>, n: nat, now: int): State
    requires n <= |checks|
  {
    if n == 0 then lim else Apply(Looked(lim, maxBuckets, checks, n - 1, now), maxBuckets,
                                  OpFor(checks[n - 1], false, now))
  }

  function LookAnswers(lim: State, maxBuckets: nat, checks: seq<LimitCheck>, n: nat, now: int): seq<Answer>
    requires n <= |checks|
  {
    if n == 0 then []
    else LookAnswers(lim, maxBuckets, checks, n - 1, now)
         + [AnswerOf(Looked(lim, maxBuckets, checks, n - 1, now), OpFor(checks[n - 1], false, now))]
  }

  /** A check forgets only what is expired, so at the same time every other check or consume answers as before. */
  lemma LookingChangesNothing(lim: State, maxBuckets: nat, looked: LimitCheck, other: LimitCheck, consume: bool,
                              now: int)
    ensures AnswerOf(Apply(lim, maxBuckets, OpFor(looked, false, now)), OpFor(other, consume, now))
            == AnswerOf(lim, OpFor(other, consume, now))
  {
    var op, sk := OpFor(looked, false, now), BucketOf(other);
    StorageKeyInjective(looked.key, looked.window, other.key, other.window);
    hide StorageKey, Filter;
    BucketAfterOp(lim, maxBuckets, op, sk);
    AppendNothing(Filter(Bucket(lim, sk), now - other.window));
    FilterTwice(Bucket(lim, sk), now - other.window, now - other.window);
  }

  function LookFor(check: LimitCheck, now: int): Op {
    CheckOp(check.key, check.limit, check.window, now, now)
  }

  /**
   Checking without consuming ends at the first limit that by itself would deny the request, with its answer, and
   passes when there is none.
   */
  lemma {:induction false} LooksPassTogether(lim: State, maxBuckets: nat, p: Process, now: int)
    requires p.next <= |p.checks| && p.verdict == (if p.next == |p.checks| then Allowed else Undecided)
    ensures var r := RunAlone(lim, maxBuckets, p, false, now);
            && r.process.checks == p.checks && p.next <= r.process.next <= |p.checks|
            && (forall i :: p.next <= i < r.process.next ==> AnswerOf(lim, LookFor(p.checks[i], now)).allowed)
            && (if r.process.next == |p.checks| then r.process.verdict == Allowed && r.refusal == None
                else
                  var answer := AnswerOf(lim, LookFor(p.checks[r.process.next], now));
                  !answer.allowed && r.process.verdict == Denied && r.refusal == Some(answer))
    decreases |p.checks| - p.next
  {
    hide Apply, AnswerOf;
    if p.next < |p.checks| {
      var op := LookFor(p.checks[p.next], now);
      var next := Apply(lim, maxBuckets, op);
      if AnswerOf(lim, op).allowed {
        LooksPassTogether(next, maxBuckets, AfterCheck(p, true), now);
        forall i | p.next <= i < |p.checks|
          ensures AnswerOf(next, LookFor(p.checks[i], now)) == AnswerOf(lim, LookFor(p.checks[i], now))
        {
          LookingChangesNothing(lim, maxBuckets, p.checks[p.next], p.checks[i], false, now);
        }
      }
    }
  }

  /** The second loop takes nothing from any bucket, and asks each limit what it would say by itself. */
  lemma {:induction false} LooksTakeNothing(lim: State, maxBuckets: nat, checks: seq<LimitCheck>, n: nat, now: int)
    requires n <= |checks|
    ensures var answers := LookAnswers(lim, maxBuckets, checks, n, now);
            |answers| == n && forall i :: 0 <= i < n ==> answers[i] == AnswerOf(lim, LookFor(checks[i], now))
    ensures forall other, consume :: AnswerOf(Looked(lim, maxBuckets, checks, n, now), OpFor(other, consume, now))
                                     == AnswerOf(lim, OpFor(other, consume, now))
  {
    hide Apply, AnswerOf;
    if n > 0 {
      LooksTakeNothing(lim, maxBuckets, checks, n - 1, now);
      var before := Looked(lim, maxBuckets, checks, n - 1, now);
      assert OpFor(checks[n - 1], false, now) == LookFor(checks[n - 1], now);
      forall other, consume
        ensures AnswerOf(Apply(before, maxBuckets, LookFor(checks[n - 1], now)), OpFor(other, consume, now))
                == AnswerOf(before, OpFor(other, consume, now))
      {
        LookingChangesNothing(before, maxBuckets, checks[n - 1], other, consume, now);
      }
    }
  }

  /** An uninterrupted request is a process whose steps come one after the other, and it is decided in the end. */
  lemma {:induction false} AloneIsTrace(maxBuckets: nat, trace: Trace, pid: Pid, now: int) returns (whole: Trace)
    requires Legal(maxBuckets, trace) && pid in Reached(maxBuckets, trace).processes
    ensures Legal(maxBuckets, whole)
    ensures var sys := Reached(maxBuckets, trace);
            var r := RunAlone(sys.limiter, maxBuckets, sys.processes[pid], true, now);
            && Reached(maxBuckets, whole) == System(r.limiter, sys.processes[pid := r.process])
            && r.process.verdict != Undecided
            && (r.refusal.Some? ==>
                  && whole.Followed? && whole.last == Advance(pid, now, now)
                  && r.process.verdict == Denied
                  && r.refusal.value == AnswerOf(Reached(maxBuckets, whole.past).limiter,
                                                 OpOf(Reached(maxBuckets, whole.past), whole.last).value))
            && (r.refusal.None? ==> r.process == sys.processes[pid] || r.process.verdict == Allowed)
    decreases var p := Reached(maxBuckets, trace).processes[pid]; |p.checks| - p.next
  {
    hide Apply, AnswerOf;
    var sys := Reached(maxBuckets, trace);
    var p := sys.processes[pid];
    StampsOfRequest(maxBuckets, trace, pid);
    if p.verdict == Undecided {
      var step := Followed(trace, Advance(pid, now, now));
      assert Reached(maxBuckets, step) == After(sys, maxBuckets, Advance(pid, now, now));
      if AnswerOf(sys.limiter, ConsumeOf(p.checks[p.next], now, now)).allowed {
        whole := AloneIsTrace(maxBuckets, step, pid, now);
      } else {
        whole := step;
      }
    } else {
      whole := trace;
      assert sys.processes[pid := p] == sys.processes;
    }
  }

  datatype Evaluation = Blocked(blockedBy: LimitCheck, answer: Answer) | Passed(best: Option<Answer>)

  class RateLimiter {
    const limiter: SlidingWindowLimiter

    constructor (limiter: SlidingWindowLimiter)
      ensures this.limiter == limiter
    {
      this.limiter := limiter;
    }

    method ApplyCheck(check: LimitCheck, consume: bool, now: int) returns (result: Answer)
      requires limiter.Valid()
      modifies limiter
      ensures limiter.Valid()
      ensures result == AnswerOf(old(limiter.Value()), OpFor(check, consume, now))
      ensures limiter.Value() == Apply(old(limiter.Value()), limiter.maxBuckets, OpFor(check, consume, now))
    {
      if consume {
        result := limiter.Consume(check.key, check.limit, check.window, now, now);
      } else {
        result := limiter.Check(check.key, check.limit, check.window, now, now);
      }
    }

    /** The first loop: stops at the first check that is denied. */
    method FirstDenied(checks: seq<LimitCheck>, consume: bool, now: int) returns (denied: Option<Answer>, at: nat)
      requires limiter.Valid()
      modifies limiter
      ensures limiter.Valid()
      ensures var r := RunAlone(old(limiter.Value()), limiter.maxBuckets, Begun(checks), consume, now);
              && limiter.Value() == r.limiter && denied == r.refusal && at == r.process.next
              && r.process.verdict == (if denied.Some? then Denied else Allowed)
              && (denied.Some? ==> at < |checks|) && (denied.None? ==> at == |checks|)
    {
      ghost var start := limiter.Value();
      ghost var p := Begun(checks);
      denied, at := None, 0;
      hide Apply, AnswerOf, Consistent, OpFor;
      while at < |checks|
        invariant limiter.Valid() && at <= |checks|
        invariant p == Process(checks, at, if at == |checks| then Allowed else Undecided)
        invariant RunAlone(start, limiter.maxBuckets, Begun(checks), consume, now)
               == RunAlone(limiter.Value(), limiter.maxBuckets, p, consume, now)
      {
        var result := ApplyCheck(checks[at], consume, now);
        p := AfterCheck(p, result.allowed);
        if !result.allowed {
          return Some(result), at;
        }
        at := at + 1;
      }
    }

    /** The second loop: the answers of a check of every limit, from which the least remaining one is taken. */
    method LookAtAll(checks: seq<LimitCheck>, now: int) returns (answers: seq<Answer>)
      requires limiter.Valid()
      modifies limiter
      ensures limiter.Valid() && (answers == [] <==> checks == [])
      ensures limiter.Value() == Looked(old(limiter.Value()), limiter.maxBuckets, checks, |checks|, now)
      ensures answers == LookAnswers(old(limiter.Value()), limiter.maxBuckets, checks, |checks|, now)
    {
      ghost var start := limiter.Value();
      answers := [];
      hide Apply, AnswerOf, Consistent, OpFor;
      for k := 0 to |checks|
        invariant limiter.Valid() && |answers| == k
        invariant limiter.Value() == Looked(start, limiter.maxBuckets, checks, k, now)
        invariant answers == LookAnswers(start, limiter.maxBuckets, checks, k, now)
      {
        var result := ApplyCheck(checks[k], false, now);
        answers := answers + [result];
      }
    }

    /** The checks of a request, one after the other without interruption. */
    method EvaluateChecks(checks: seq<LimitCheck>, consume: bool, now: int) returns (evaluation: Evaluation)
      requires limiter.Valid()
      modifies limiter
      ensures limiter.Valid()
      ensures var r := RunAlone(old(limiter.Value()), limiter.maxBuckets, Begun(checks), consume, now);
              if r.process.verdict == Denied then
                && r.process.next < |checks| && r.refusal.Some?
                && evaluation == Blocked(checks[r.process.next], r.refusal.value) && limiter.Value() == r.limiter
              else
                && r.process.verdict == Allowed && evaluation.Passed?
                && IsBest(LookAnswers(r.limiter, limiter.maxBuckets, checks, |checks|, now), evaluation.best)
                && limiter.Value() == Looked(r.limiter, limiter.maxBuckets, checks, |checks|, now)
    {
      hide RunAlone, Looked, Consistent, LookAnswers;
      var denied, at := FirstDenied(checks, consume, now);
      if denied.Some? {
        return Blocked(checks[at], denied.value);
      }
      var answers := LookAtAll(checks, now);
      var best := MostRestrictive(answers);
      evaluation := Passed(best);
    }
  }

  // ---------------------------------------------------------------------------------------------
  // The bound for requests

  /** The requests that added a timestamp between `lo` and `hi` to the bucket. */
  function RequestsIn(maxBuckets: nat, trace: Trace, sk: BucketKey, lo: int, hi: int): set<Pid>
    requires Legal(maxBuckets, trace)
  {
    match trace
    case Nothing => {}
    case Followed(past, last) =>
      RequestsIn(maxBuckets, past, sk, lo, hi)
      + if last.Advance? && StampsBucket(Reached(maxBuckets, past), last, sk) && lo <= last.t1 <= hi then {last.pid}
        else {}
  }

  predicate StampsBucket(sys: System, step: Step, sk: BucketKey)
    requires Enabled(sys, step) && step.Advance?
  {
    OnBucket(OpOf(sys, step).value, sk) && AnswerOf(sys.limiter, OpOf(sys, step).value).allowed
  }

  lemma {:induction false} RequestsAtMostStamps(maxBuckets: nat, trace: Trace, sk: BucketKey, lo: int, hi: int)
    requires Legal(maxBuckets, trace)
    ensures |RequestsIn(maxBuckets, trace, sk, lo, hi)|
            <= CountIn(Admitted(EMPTY, maxBuckets, RunOf(maxBuckets, trace), sk), lo, hi)
  {
    hide Apply, AnswerOf, CountIn, OnBucket;
    match trace
    case Nothing =>
    case Followed(past, last) =>
      RequestsAtMostStamps(maxBuckets, past, sk, lo, hi);
      LimiterOfTrace(maxBuckets, past);
      var sys := Reached(maxBuckets, past);
      var before := Admitted(EMPTY, maxBuckets, RunOf(maxBuckets, past), sk);
      match OpOf(sys, last)
      case None =>
      case Some(op) =>
        CountSnoc(before,
                  if op.ConsumeOp? && OnBucket(op, sk) && AnswerOf(sys.limiter, op).allowed then [op.t1]
                  else [], lo, hi);
  }

  ghost predicate IsAllowed(sys: System, pid: Pid) {
    pid in sys.processes && sys.processes[pid].verdict == Allowed
  }

  /**
   The bound under every interleaving: of the requests that were allowed, at most `limit` used the
   bucket within any closed interval of its window's length, as long as the bucket was not thrown away.
   */
  lemma AllowedWithinLimit(maxBuckets: nat, trace: Trace, key: string, window: nat, limit: int, from: int, lo: int)
    requires Legal(maxBuckets, trace) && RunMonotone(RunOf(maxBuckets, trace), from)
    requires KeepsBucket(EMPTY, maxBuckets, RunOf(maxBuckets, trace), StorageKey(key, window))
    requires RunLimit(RunOf(maxBuckets, trace), StorageKey(key, window), limit)
    ensures |set pid | pid in RequestsIn(maxBuckets, trace, StorageKey(key, window), lo, lo + window)
                       && IsAllowed(Reached(maxBuckets, trace), pid)| <= Max(limit, 0)
  {
    hide RunOf, Reached, Admitted, KeepsBucket, RunLimit, RunMonotone, RequestsIn;
    var sk := StorageKey(key, window);
    AdmittedWithinLimit(EMPTY, maxBuckets, RunOf(maxBuckets, trace), key, window, limit, from, lo);
    RequestsAtMostStamps(maxBuckets, trace, sk, lo, lo + window);
    var all := RequestsIn(maxBuckets, trace, sk, lo, lo + window);
    var allowed := set pid | pid in all && IsAllowed(Reached(maxBuckets, trace), pid);
    SubsetSize(allowed, all);
  }

  /** With no more buckets in use than the map can hold, it is enough that nobody resets the bucket. */
  lemma AllowedWithinCap(maxBuckets: nat, trace: Trace, key: string, window: nat, limit: int, from: int, lo: int)
    requires Legal(maxBuckets, trace) && RunMonotone(RunOf(maxBuckets, trace), from)
    requires |BucketsUsed(RunOf(maxBuckets, trace))| <= Capacity(maxBuckets)
    requires NeverReset(RunOf(maxBuckets, trace), StorageKey(key, window))
    requires RunLimit(RunOf(maxBuckets, trace), StorageKey(key, window), limit)
    ensures |set pid | pid in RequestsIn(maxBuckets, trace, StorageKey(key, window), lo, lo + window)
                       && IsAllowed(Reached(maxBuckets, trace), pid)| <= Max(limit, 0)
  {
    hide RunOf, Reached, Admitted, KeepsBucket, RunLimit, RunMonotone, RequestsIn, BucketsUsed, NeverReset, Holds;
    var run := RunOf(maxBuckets, trace);
    FewBucketsKept(maxBuckets, run, BucketsUsed(run), StorageKey(key, window));
    AllowedWithinLimit(maxBuckets, trace, key, window, limit, from, lo);
  }

  // ---------------------------------------------------------------------------------------------
  // The configured limits, end to end

  /** The requests that added a timestamp to the bucket in that time under this limit or a lower one. */
  function RequestsUnder(maxBuckets: nat, trace: Trace, sk: BucketKey, limit: int, lo: int, hi: int): set<Pid>
    requires Legal(maxBuckets, trace)
  {
    match trace
    case Nothing => {}
    case Followed(past, last) =>
      RequestsUnder(maxBuckets, past, sk, limit, lo, hi)
      + if last.Advance? && StampsBucket(Reached(maxBuckets, past), last, sk) && lo <= last.t1 <= hi
           && OpOf(Reached(maxBuckets, past), last).value.limit <= limit then {last.pid}
        else {}
  }

  lemma {:induction false} RequestsUnderStamps(maxBuckets: nat, trace: Trace, sk: BucketKey, limit: int, lo: int,
                                               hi: int)
    requires Legal(maxBuckets, trace)
    ensures |RequestsUnder(maxBuckets, trace, sk, limit, lo, hi)|
            <= CountIn(AdmittedUnder(EMPTY, maxBuckets, RunOf(maxBuckets, trace), sk, limit), lo, hi)
  {
    hide Apply, AnswerOf, CountIn, OnBucket;
    match trace
    case Nothing =>
    case Followed(past, last) =>
      RequestsUnderStamps(maxBuckets, past, sk, limit, lo, hi);
      LimiterOfTrace(maxBuckets, past);
      var sys := Reached(maxBuckets, past);
      match OpOf(sys, last)
      case None =>
      case Some(op) =>
        CountSnoc(AdmittedUnder(EMPTY, maxBuckets, RunOf(maxBuckets, past), sk, limit),
                  if op.ConsumeOp? && OnBucket(op, sk) && op.limit <= limit && AnswerOf(sys.limiter, op).allowed
                  then [op.t1] else [], lo, hi);
  }

  /** The requests that are allowed, are subject to this check, and were charged for it in that time. */
  ghost function AllowedUnder(maxBuckets: nat, trace: Trace, key: string, limit: int, window: nat, lo: int,
                              hi: int): set<Pid>
    requires Legal(maxBuckets, trace)
  {
    var sys := Reached(maxBuckets, trace);
    set pid | pid in RequestsIn(maxBuckets, trace, StorageKey(key, window), lo, hi) && IsAllowed(sys, pid)
              && HasCheck(sys.processes[pid].checks, key, limit, window)
  }

  ghost predicate HasCheck(checks: seq<LimitCheck>, key: string, limit: int, window: nat) {
    exists c :: c in checks && c.key == key && c.limit == limit && c.window == window
  }

  /** On distinct buckets only one check of a request charges this one. */
  lemma OneCheckPerBucket(p: Process, op: Op, key: string, limit: int, window: nat)
    requires DistinctBuckets(p.checks) && HasCheck(p.checks, key, limit, window) && p.next < |p.checks|
    requires op.ConsumeOp? && op == ConsumeOf(p.checks[p.next], op.t0, op.t1) && OnBucket(op, StorageKey(key, window))
    ensures op.limit == limit
  {
    var c :| c in p.checks && c.key == key && c.limit == limit && c.window == window;
    var i :| 0 <= i < |p.checks| && p.checks[i] == c;
    hide StorageKey;
    assert BucketOf(p.checks[i]) == BucketOf(p.checks[p.next]);
  }

  /** Who was charged for a check was charged under its limit. */
  lemma {:induction false} ChargedUnderLimit(maxBuckets: nat, trace: Trace, pid: Pid, key: string, limit: int,
                                             window: nat, lo: int, hi: int)
    requires Legal(maxBuckets, trace) && pid in RequestsIn(maxBuckets, trace, StorageKey(key, window), lo, hi)
    ensures pid in Reached(maxBuckets, trace).processes
    ensures var checks := Reached(maxBuckets, trace).processes[pid].checks;
            DistinctBuckets(checks) && HasCheck(checks, key, limit, window) ==>
              pid in RequestsUnder(maxBuckets, trace, StorageKey(key, window), limit, lo, hi)
  {
    hide Apply, AnswerOf, StorageKey, HasCheck, DistinctBuckets, OnBucket;
    var past, last := trace.past, trace.last;
    var sys := Reached(maxBuckets, past);
    if pid in RequestsIn(maxBuckets, past, StorageKey(key, window), lo, hi) {
      ChargedUnderLimit(maxBuckets, past, pid, key, limit, window, lo, hi);
    } else {
      var p := sys.processes[pid];
      if DistinctBuckets(p.checks) && HasCheck(p.checks, key, limit, window) {
        OneCheckPerBucket(p, OpOf(sys, last).value, key, limit, window);
      }
    }
  }

  ghost predicate AllDistinct(sys: System) {
    forall pid :: pid in sys.processes ==> DistinctBuckets(sys.processes[pid].checks)
  }

  /**
   Each check holds for the requests that are subject to it, even if others charge the same bucket under another
   limit: of them at most `limit` are allowed within any closed interval of the window's length.
   */
  lemma CheckHolds(maxBuckets: nat, trace: Trace, key: string, limit: int, window: nat, from: int, lo: int)
    requires Legal(maxBuckets, trace) && RunMonotone(RunOf(maxBuckets, trace), from)
    requires AllDistinct(Reached(maxBuckets, trace))
    requires KeepsBucket(EMPTY, maxBuckets, RunOf(maxBuckets, trace), StorageKey(key, window))
    ensures |AllowedUnder(maxBuckets, trace, key, limit, window, lo, lo + window)| <= Max(limit, 0)
  {
    hide RunOf, Reached, AdmittedUnder, KeepsBucket, RunMonotone, RequestsIn, RequestsUnder, StorageKey, HasCheck,
         DistinctBuckets;
    var sk := StorageKey(key, window);
    var allowed := AllowedUnder(maxBuckets, trace, key, limit, window, lo, lo + window);
    var under := RequestsUnder(maxBuckets, trace, sk, limit, lo, lo + window);
    forall pid | pid in allowed ensures pid in under {
      ChargedUnderLimit(maxBuckets, trace, pid, key, limit, window, lo, lo + window);
    }
    SubsetSize(allowed, under);
    RequestsUnderStamps(maxBuckets, trace, sk, limit, lo, lo + window);
    AdmittedUnderLimit(EMPTY, maxBuckets, RunOf(maxBuckets, trace), key, window, limit, from, lo);
  }

  /** Who makes a request, and for which tool of which server. */
  datatype Origin = Origin(client: string, server: string, tool: string)

  /** Every request is evaluated on the checks of its origin: all of them, or those of its client or server side. */
  ghost predicate Configured(sys: System, config: Config, origins: map<Pid, Origin>) {
    forall pid :: pid in sys.processes ==>
      && pid in origins
      && ForRequest(sys.processes[pid].checks, config, origins[pid].client, origins[pid].server, origins[pid].tool)
  }

  /** The configuration limits the request under this key, on the side or the sides that it is evaluated on. */
  ghost predicate LimitedUnder(checks: seq<LimitCheck>, config: Config, o: Origin, key: string, limits: Limits) {
    || (checks == GetChecks(config, o.client, o.server, o.tool)
        && Applies(config, o.client, o.server, o.tool, key, limits))
    || (checks == GetClientChecks(config, o.client) && AppliesToClient(config, o.client, key, limits))
    || (checks == GetServerChecks(config, o.client, o.server, o.tool)
        && AppliesToServer(config, o.client, o.server, o.tool, key, limits))
  }

  lemma LimitedHasCheck(checks: seq<LimitCheck>, config: Config, o: Origin, key: string, limits: Limits, limit: int,
                        window: nat)
    requires LimitedUnder(checks, config, o, key, limits) && Limited(limits, limit, window)
    ensures HasCheck(checks, key, limit, window)
  {
    RequestChecksFor(config, o.client, o.server, o.tool);
    ClientChecksFor(config, o.client);
    ServerChecksFor(config, o.client, o.server, o.tool);
    hide GetChecks, GetClientChecks, GetServerChecks, Applies, AppliesToClient, AppliesToServer, ChecksFor, HasCheck,
         Limited;
    if checks == GetChecks(config, o.client, o.server, o.tool)
       && Applies(config, o.client, o.server, o.tool, key, limits) {
      ConfiguredCheck(checks, (k, l) => Applies(config, o.client, o.server, o.tool, k, l), key, limits, limit, window);
    } else if checks == GetClientChecks(config, o.client) && AppliesToClient(config, o.client, key, limits) {
      ConfiguredCheck(checks, (k, l) => AppliesToClient(config, o.client, k, l), key, limits, limit, window);
    } else {
      ConfiguredCheck(checks, (k, l) => AppliesToServer(config, o.client, o.server, o.tool, k, l), key, limits, limit,
                      window);
    }
  }

  /** The allowed requests that the configuration limits under this key, charged for this window in that time. */
  ghost function AllowedOf(maxBuckets: nat, trace: Trace, config: Config, origins: map<Pid, Origin>, key: string,
                           limits: Limits, window: nat, lo: int, hi: int): set<Pid>
    requires Legal(maxBuckets, trace)
  {
    set pid | pid in RequestsIn(maxBuckets, trace, StorageKey(key, window), lo, hi) && pid in origins
              && IsAllowed(Reached(maxBuckets, trace), pid)
              && LimitedUnder(Reached(maxBuckets, trace).processes[pid].checks, config, origins[pid], key, limits)
  }

  /**
   The configured limits hold end to end: whatever interleaves, of the requests that the configuration limits under
   a key at most the configured number is allowed within any closed minute, hour or day, as long as the bucket is
   kept.
   */
  lemma ConfiguredLimitsHold(maxBuckets: nat, trace: Trace, config: Config, origins: map<Pid, Origin>, key: string,
                             limits: Limits, limit: int, window: nat, from: int, lo: int)
    requires Legal(maxBuckets, trace) && RunMonotone(RunOf(maxBuckets, trace), from)
    requires Configured(Reached(maxBuckets, trace), config, origins) && Limited(limits, limit, window)
    requires KeepsBucket(EMPTY, maxBuckets, RunOf(maxBuckets, trace), StorageKey(key, window))
    ensures |AllowedOf(maxBuckets, trace, config, origins, key, limits, window, lo, lo + window)| <= Max(limit, 0)
  {
    hide RunOf, Reached, KeepsBucket, RunMonotone, RequestsIn, StorageKey, HasCheck, LimitedUnder, Limited,
         DistinctBuckets, GetChecks, GetClientChecks, GetServerChecks;
    var sys := Reached(maxBuckets, trace);
    forall pid | pid in sys.processes ensures DistinctBuckets(sys.processes[pid].checks) {
      ChecksDistinct(config, origins[pid].client, origins[pid].server, origins[pid].tool);
    }
    var limited := AllowedOf(maxBuckets, trace, config, origins, key, limits, window, lo, lo + window);
    forall pid | pid in limited ensures HasCheck(sys.processes[pid].checks, key, limit, window) {
      LimitedHasCheck(sys.processes[pid].checks, config, origins[pid], key, limits, limit, window);
    }
    SubsetSize(limited, AllowedUnder(maxBuckets, trace, key, limit, window, lo, lo + window));
    CheckHolds(maxBuckets, trace, key, limit, window, from, lo);
  }

  lemma ConfiguredCheck(checks: seq<LimitCheck>, applies: (string, Limits) -> bool, key: string, limits: Limits,
                        limit: int, window: nat)
    requires ChecksFor(checks, applies) && applies(key, limits) && Limited(limits, limit, window)
    ensures HasCheck(checks, key, limit, window)
  {
    hide Limited;
  }

  /** For instance a client is allowed no more requests per minute, hour and day than the configuration gives each. */
  lemma ClientLimitsHold(maxBuckets: nat, trace: Trace, config: Config, origins: map<Pid, Origin>, client: string,
                         limit: int, window: nat, from: int, lo: int)
    requires Legal(maxBuckets, trace) && RunMonotone(RunOf(maxBuckets, trace), from)
    requires Configured(Reached(maxBuckets, trace), config, origins)
    requires config.perClient.Some?
    requires || (window == 60_000 && config.perClient.value.perMinute == Some(limit))
             || (window == 3_600_000 && config.perClient.value.perHour == Some(limit))
             || (window == 86_400_000 && config.perClient.value.perDay == Some(limit))
    requires KeepsBucket(EMPTY, maxBuckets, RunOf(maxBuckets, trace), StorageKey("client:" + client, window))
    ensures |set pid | pid in RequestsIn(maxBuckets, trace, StorageKey("client:" + client, window), lo, lo + window)
                       && pid in origins && IsAllowed(Reached(maxBuckets, trace), pid)
                       && OnClientSide(Reached(maxBuckets, trace).processes[pid].checks, config, origins[pid], client)|
            <= Max(limit, 0)
  {
    hide RunOf, Reached, KeepsBucket, RunMonotone, RequestsIn, StorageKey, Configured, AppliesToServer, GetChecks,
         GetClientChecks, GetServerChecks;
    var key, limits := "client:" + client, config.perClient.value;
    var mine := set pid | pid in RequestsIn(maxBuckets, trace, StorageKey(key, window), lo, lo + window)
                          && pid in origins && IsAllowed(Reached(maxBuckets, trace), pid)
                          && OnClientSide(Reached(maxBuckets, trace).processes[pid].checks, config, origins[pid],
                                          client);
    SubsetSize(mine, AllowedOf(maxBuckets, trace, config, origins, key, limits, window, lo, lo + window));
    ConfiguredLimitsHold(maxBuckets, trace, config, origins, key, limits, limit, window, from, lo);
  }

  /** A request of this client, evaluated on all its checks or on those of the client side. */
  predicate OnClientSide(checks: seq<LimitCheck>, config: Config, o: Origin, client: string) {
    && o.client == client
    && (checks == GetChecks(config, client, o.server, o.tool) || checks == GetClientChecks(config, client))
  }

  /** And no allowed request escapes the count: it was charged, at some time, for every check it is subject to. */
  lemma AllowedIsCharged(maxBuckets: nat, trace: Trace, pid: Pid, key: string, limit: int, window: nat)
    requires Legal(maxBuckets, trace) && IsAllowed(Reached(maxBuckets, trace), pid)
    requires HasCheck(Reached(maxBuckets, trace).processes[pid].checks, key, limit, window)
    ensures exists t :: pid in RequestsIn(maxBuckets, trace, StorageKey(key, window), t, t)
  {
    hide Reached, StampedBy, StorageKey, RequestsIn;
    StampsOfRequest(maxBuckets, trace, pid);
    var p := Reached(maxBuckets, trace).processes[pid];
    var c :| c in p.checks && c.key == key && c.limit == limit && c.window == window;
    var i :| 0 <= i < |p.checks| && p.checks[i] == c;
    assert p.checks[..p.next] == p.checks;
    assert Buckets(p.checks)[i] == StorageKey(key, window);
    var t := StampTime(maxBuckets, trace, pid, StorageKey(key, window));
  }

  lemma {:induction false} StampTime(maxBuckets: nat, trace: Trace, pid: Pid, sk: BucketKey) returns (t: int)
    requires Legal(maxBuckets, trace) && sk in StampedBy(maxBuckets, trace, pid)
    ensures pid in RequestsIn(maxBuckets, trace, sk, t, t)
  {
    hide Apply, AnswerOf, StorageKey;
    var past, last := trace.past, trace.last;
    if sk in StampedBy(maxBuckets, past, pid) {
      t := StampTime(maxBuckets, past, pid, sk);
    } else {
      t := last.t1;
    }
  }
}
