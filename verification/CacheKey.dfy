/**
 Cache keys (src/cache/cache-key.ts) and approval fingerprints (src/governance/runtime.ts): the
 SHA-256 digest of a canonical text. The digest is modelled as an injective constructor, so that
 what remains to be proved is that the canonical text identifies the request.
 */
module CacheKey {
  import opened Sequences
  import opened Wrappers
  import opened JsonText
  import opened CanonicalJson

  datatype Digest = Sha256(text: Text)

  const SERVER_ID: Text := [115, 101, 114, 118, 101, 114, 95, 105, 100]
  const TOOL_NAME: Text := [116, 111, 111, 108, 95, 110, 97, 109, 101]
  const ARGS: Text := [97, 114, 103, 115]
  const TENANT_ID: Text := [116, 101, 110, 97, 110, 116, 95, 105, 100]
  const GROUP_ID: Text := [103, 114, 111, 117, 112, 95, 105, 100]

  datatype KeyOptions = KeyOptions(
    serverId: Text,
    toolName: Text,
    args: seq<Member>,
    tenantId: Option<Text>,
    groupId: Option<Text>,
    ignoreArgs: set<Text>)

  /** The object that the filter loop has built after the entries of `args`. */
  function FilteredArgs(args: seq<Member>, ignoreArgs: set<Text>): seq<Member> {
    if args == [] then []
    else
      var n := |args| - 1;
      var before := FilteredArgs(args[..n], ignoreArgs);
      if args[n].key in ignoreArgs then before else SetProperty(before, args[n].key, args[n].value)
  }

  method FilterArgs(args: seq<Member>, ignoreArgs: set<Text>) returns (filtered: seq<Member>)
    ensures filtered == FilteredArgs(args, ignoreArgs)
  {
    filtered := [];
    for i := 0 to |args|
      invariant filtered == FilteredArgs(args[..i], ignoreArgs)
    {
      assert args[..i + 1][..i] == args[..i];
      if args[i].key !in ignoreArgs {
        filtered := SetProperty(filtered, args[i].key, args[i].value);
      }
    }
    assert args[..|args|] == args;
  }

  lemma {:induction false} InsertIndexMembers(members: seq<Member>, m: Member)
    ensures forall e :: e in InsertIndex(members, m) <==> e in members || e == m
    ensures DistinctKeys(members) && m.key !in Keys(members) ==> DistinctKeys(InsertIndex(members, m))
  {
    var r := InsertIndex(members, m);
    if members != [] && IsArrayIndex(members[0].key) && IndexLess(members[0].key, m.key) {
      InsertIndexMembers(members[1..], m);
      assert members == [members[0]] + members[1..];
      if DistinctKeys(members) && m.key !in Keys(members) {
        forall j | 0 <= j < |members[1..]| ensures members[1..][j].key != m.key {
          assert members[j + 1].key in Keys(members);
        }
        assert members[0].key in Keys(members);
        forall j | 0 < j < |r| ensures r[0].key != r[j].key {
          assert r[j] in InsertIndex(members[1..], m);
          if r[j] != m {
            var i :| 0 <= i < |members[1..]| && members[1..][i] == r[j];
            assert members[i + 1] == r[j];
          }
        }
      }
    } else if m.key !in Keys(members) {
      forall j | 0 < j < |r| ensures r[0].key != r[j].key {
        assert r[j] == members[j - 1];
        assert members[j - 1].key in Keys(members);
      }
    }
  }

  /** The filter keeps exactly the arguments that are not ignored (and not `__proto__`). */
  lemma {:induction false} FilteredArgsMembers(args: seq<Member>, ignoreArgs: set<Text>)
    requires DistinctKeys(args)
    ensures DistinctKeys(FilteredArgs(args, ignoreArgs))
    ensures forall e :: e in FilteredArgs(args, ignoreArgs) <==> e in args && e.key !in ignoreArgs && e.key != PROTO
  {
    if args != [] {
      var n := |args| - 1;
      var before := FilteredArgs(args[..n], ignoreArgs);
      FilteredArgsMembers(args[..n], ignoreArgs);
      assert args == args[..n] + [args[n]];
      if args[n].key !in ignoreArgs && args[n].key != PROTO {
        forall j | 0 <= j < |before| ensures before[j].key != args[n].key {
          assert before[j] in before;
          var i :| 0 <= i < n && args[..n][i] == before[j];
          assert args[i].key != args[n].key;
        }
        assert args[n].key !in Keys(before);
        InsertIndexMembers(before, Member(args[n].key, args[n].value));
      }
    }
  }

  function Components(options: KeyOptions): seq<Member> {
    [Member(SERVER_ID, String(options.serverId)),
     Member(TOOL_NAME, String(options.toolName)),
     Member(ARGS, Object(FilteredArgs(options.args, options.ignoreArgs)))]
    + (if options.tenantId.Some? then [Member(TENANT_ID, String(options.tenantId.value))] else [])
    + (if options.groupId.Some? then [Member(GROUP_ID, String(options.groupId.value))] else [])
  }

  function GenerateCacheKey(options: KeyOptions): Digest
    requires WellFormed(Object(options.args))
  {
    ComponentsWellFormed(options);
    Sha256(DeterministicStringify(Object(Components(options))))
  }

  lemma FilteredArgsWellFormed(args: seq<Member>, ignoreArgs: set<Text>)
    requires WellFormed(Object(args))
    ensures WellFormed(Object(FilteredArgs(args, ignoreArgs)))
  {
    var filtered := FilteredArgs(args, ignoreArgs);
    FilteredArgsMembers(args, ignoreArgs);
    forall i | 0 <= i < |filtered| ensures WellFormed(filtered[i].value) {
      assert filtered[i] in filtered;
      var j :| 0 <= j < |args| && args[j] == filtered[i];
    }
  }

  lemma ComponentsWellFormed(options: KeyOptions)
    requires WellFormed(Object(options.args))
    ensures WellFormed(Object(Components(options)))
  {
    FilteredArgsWellFormed(options.args, options.ignoreArgs);
    assert SERVER_ID[0] == 115 && TOOL_NAME[1] == 111 && ARGS[0] == 97 && TENANT_ID[1] == 101 && GROUP_ID[0] == 103;
  }

  /** The arguments that count are the same, up to key order and `__proto__` keys at every depth. */
  predicate SameArgs(a: seq<Member>, ignoredA: set<Text>, b: seq<Member>, ignoredB: set<Text>) {
    && Keys(a) - ignoredA - {PROTO} == Keys(b) - ignoredB - {PROTO}
    && forall i, j :: 0 <= i < |a| && 0 <= j < |b| && a[i].key == b[j].key && a[i].key in Keys(a) - ignoredA - {PROTO}
         ==> SameExcept(a[i].value, b[j].value, {PROTO})
  }

  /** The identity that cache entries are separated by. */
  predicate SameIdentity(x: KeyOptions, y: KeyOptions) {
    && x.serverId == y.serverId
    && x.toolName == y.toolName
    && x.tenantId == y.tenantId
    && x.groupId == y.groupId
    && SameArgs(x.args, x.ignoreArgs, y.args, y.ignoreArgs)
  }

  lemma FilteredKeys(args: seq<Member>, ignoreArgs: set<Text>)
    requires DistinctKeys(args)
    ensures Keys(FilteredArgs(args, ignoreArgs)) == Keys(args) - ignoreArgs - {PROTO}
  {
    var filtered := FilteredArgs(args, ignoreArgs);
    FilteredArgsMembers(args, ignoreArgs);
    forall k ensures k in Keys(filtered) <==> k in Keys(args) - ignoreArgs - {PROTO} {
      if k in Keys(filtered) {
        var i := IndexOf(filtered, k);
        assert filtered[i] in args;
      }
      if k in Keys(args) - ignoreArgs - {PROTO} {
        var i := IndexOf(args, k);
        assert args[i] in filtered;
      }
    }
  }

  lemma FilteredSame(a: seq<Member>, ignoredA: set<Text>, b: seq<Member>, ignoredB: set<Text>)
    requires DistinctKeys(a) && DistinctKeys(b)
    ensures SameExcept(Object(FilteredArgs(a, ignoredA)), Object(FilteredArgs(b, ignoredB)), {PROTO})
            <==> SameArgs(a, ignoredA, b, ignoredB)
  {
    var fa, fb := FilteredArgs(a, ignoredA), FilteredArgs(b, ignoredB);
    FilteredArgsMembers(a, ignoredA);
    FilteredArgsMembers(b, ignoredB);
    FilteredKeys(a, ignoredA);
    FilteredKeys(b, ignoredB);
    assert Keys(fa) - {PROTO} == Keys(fa) && Keys(fb) - {PROTO} == Keys(fb);
    if SameArgs(a, ignoredA, b, ignoredB) {
      forall i, j | 0 <= i < |fa| && 0 <= j < |fb| && fa[i].key == fb[j].key && fa[i].key !in {PROTO}
        ensures SameExcept(fa[i].value, fb[j].value, {PROTO})
      {
        assert fa[i] in fa && fb[j] in fb;
        var i' :| 0 <= i' < |a| && a[i'] == fa[i];
        var j' :| 0 <= j' < |b| && b[j'] == fb[j];
        assert a[i'].key in Keys(a);
      }
    }
    if SameExcept(Object(fa), Object(fb), {PROTO}) {
      forall i, j | 0 <= i < |a| && 0 <= j < |b| && a[i].key == b[j].key && a[i].key in Keys(a) - ignoredA - {PROTO}
        ensures SameExcept(a[i].value, b[j].value, {PROTO})
      {
        assert b[j].key in Keys(b) - ignoredB - {PROTO};
        assert a[i] in fa && b[j] in fb;
      }
    }
  }

  lemma ComponentKeys(options: KeyOptions)
    ensures var c := Components(options);
            && DistinctKeys(c) && PROTO !in Keys(c)
            && (TENANT_ID in Keys(c) <==> options.tenantId.Some?)
            && (GROUP_ID in Keys(c) <==> options.groupId.Some?)
  {
    var c := Components(options);
    assert SERVER_ID[0] == 115 && TOOL_NAME[1] == 111 && ARGS[0] == 97 && TENANT_ID[1] == 101 && GROUP_ID[0] == 103;
    assert PROTO[0] == 95 && TENANT_ID[0] == 116 && TOOL_NAME[0] == 116;
    if options.tenantId.Some? { assert c[3].key in Keys(c); }
    if options.groupId.Some? { assert c[|c| - 1].key in Keys(c); }
  }

  ghost predicate SameAt(c: seq<Member>, d: seq<Member>, i: nat)
    requires i < |c| && i < |d|
  {
    SameExcept(c[i].value, d[i].value, {PROTO})
  }

  /** Objects with the same keys at the same places can be compared place by place. */
  lemma AlignedSame(c: seq<Member>, d: seq<Member>)
    requires |c| == |d| && forall i :: 0 <= i < |c| ==> c[i].key == d[i].key
    requires DistinctKeys(c) && PROTO !in Keys(c)
    ensures SameExcept(Object(c), Object(d), {PROTO}) <==> forall i :: 0 <= i < |c| ==> SameAt(c, d, i)
  {
    assert forall i :: 0 <= i < |c| ==> c[i].key in Keys(c);
    assert forall i :: 0 <= i < |c| ==> d[i].key in Keys(d);
    forall k ensures k in Keys(c) <==> k in Keys(d) {
      if k in Keys(d) {
        var i := IndexOf(d, k);
        assert c[i].key == k;
      }
      if k in Keys(c) {
        var i := IndexOf(c, k);
        assert d[i].key == k;
      }
    }
    assert Keys(c) == Keys(d);
    if SameExcept(Object(c), Object(d), {PROTO}) {
      forall i | 0 <= i < |c| ensures SameAt(c, d, i) {
        assert c[i].key == d[i].key;
      }
    }
    if forall i :: 0 <= i < |c| ==> SameAt(c, d, i) {
      forall i, j | 0 <= i < |c| && 0 <= j < |d| && c[i].key == d[j].key
        ensures SameExcept(c[i].value, d[j].value, {PROTO})
      {
        assert c[j].key == d[j].key;
        assert i == j && SameAt(c, d, i);
      }
    }
  }

  lemma SameText(a: Text, b: Text)
    ensures SameExcept(String(a), String(b), {PROTO}) <==> a == b
  {
  }

  lemma ComponentsAligned(x: KeyOptions, y: KeyOptions)
    requires x.tenantId.Some? == y.tenantId.Some? && x.groupId.Some? == y.groupId.Some?
    ensures var c, d := Components(x), Components(y);
            && |c| == |d| && (forall i :: 0 <= i < |c| ==> c[i].key == d[i].key)
            && ((forall i :: 0 <= i < |c| ==> SameAt(c, d, i)) <==>
                && x.serverId == y.serverId && x.toolName == y.toolName
                && x.tenantId == y.tenantId && x.groupId == y.groupId
                && SameExcept(Object(FilteredArgs(x.args, x.ignoreArgs)), Object(FilteredArgs(y.args, y.ignoreArgs)),
                              {PROTO}))
  {
    hide SameExcept, FilteredArgs;
    var c, d := Components(x), Components(y);
    SameText(x.serverId, y.serverId);
    SameText(x.toolName, y.toolName);
    assert SameAt(c, d, 0) <==> x.serverId == y.serverId;
    assert SameAt(c, d, 1) <==> x.toolName == y.toolName;
    assert SameAt(c, d, 2) <==> SameExcept(c[2].value, d[2].value, {PROTO});
    if x.tenantId.Some? {
      SameText(x.tenantId.value, y.tenantId.value);
      assert SameAt(c, d, 3) <==> x.tenantId == y.tenantId;
    }
    if x.groupId.Some? {
      SameText(x.groupId.value, y.groupId.value);
      assert SameAt(c, d, |c| - 1) <==> x.groupId == y.groupId;
    }
  }

  lemma ComponentsSame(x: KeyOptions, y: KeyOptions)
    ensures SameExcept(Object(Components(x)), Object(Components(y)), {PROTO})
            <==> && x.serverId == y.serverId && x.toolName == y.toolName
                 && x.tenantId == y.tenantId && x.groupId == y.groupId
                 && SameExcept(Object(FilteredArgs(x.args, x.ignoreArgs)), Object(FilteredArgs(y.args, y.ignoreArgs)),
                               {PROTO})
  {
    var c, d := Components(x), Components(y);
    ComponentKeys(x);
    ComponentKeys(y);
    if x.tenantId.Some? == y.tenantId.Some? && x.groupId.Some? == y.groupId.Some? {
      ComponentsAligned(x, y);
      AlignedSame(c, d);
    } else {
      DifferentKeys(c, d, if x.tenantId.Some? != y.tenantId.Some? then TENANT_ID else GROUP_ID);
    }
  }

  lemma DifferentKeys(c: seq<Member>, d: seq<Member>, key: Text)
    requires PROTO !in Keys(c) && PROTO !in Keys(d)
    requires key in Keys(c) <==> key !in Keys(d)
    ensures !SameExcept(Object(c), Object(d), {PROTO})
  {
    assert key in Keys(c) - {PROTO} <==> key !in Keys(d) - {PROTO};
  }

  /** Two requests share a cache key exactly when they have the same cache identity. */
  lemma CacheKeyIdentity(x: KeyOptions, y: KeyOptions)
    requires WellFormed(Object(x.args)) && WellFormed(Object(y.args))
    ensures GenerateCacheKey(x) == GenerateCacheKey(y) <==> SameIdentity(x, y)
  {
    ComponentsWellFormed(x);
    ComponentsWellFormed(y);
    StringifyCanonical(Object(Components(x)), Object(Components(y)));
    ComponentsSame(x, y);
    FilteredSame(x.args, x.ignoreArgs, y.args, y.ignoreArgs);
  }

  // ---------------------------------------------------------------------------------------------
  // Up to key order alone

  /** No argument that counts has a `__proto__` key at any depth. */
  predicate ProtoFree(x: KeyOptions) {
    && PROTO !in Keys(x.args) - x.ignoreArgs
    && forall i :: 0 <= i < |x.args| && x.args[i].key !in x.ignoreArgs ==> !HasKey(x.args[i].value, PROTO)
  }

  /** The identity that cache entries should be separated by: nothing but key order is ignored. */
  predicate ExactIdentity(x: KeyOptions, y: KeyOptions) {
    && x.serverId == y.serverId
    && x.toolName == y.toolName
    && x.tenantId == y.tenantId
    && x.groupId == y.groupId
    && EqualArgs(x, y)
  }

  predicate EqualArgs(x: KeyOptions, y: KeyOptions) {
    && Keys(x.args) - x.ignoreArgs == Keys(y.args) - y.ignoreArgs
    && forall i, j :: 0 <= i < |x.args| && 0 <= j < |y.args| && SameCountedKey(x, i, y, j) ==>
         EqualUpToKeyOrder(x.args[i].value, y.args[j].value)
  }

  predicate SameCountedKey(x: KeyOptions, i: nat, y: KeyOptions, j: nat)
    requires i < |x.args| && j < |y.args|
  {
    x.args[i].key == y.args[j].key && x.args[i].key !in x.ignoreArgs
  }

  lemma IdentityUpToKeyOrder(x: KeyOptions, y: KeyOptions)
    requires ProtoFree(x) && ProtoFree(y)
    ensures SameIdentity(x, y) <==> ExactIdentity(x, y)
  {
    assert Keys(x.args) - x.ignoreArgs - {PROTO} == Keys(x.args) - x.ignoreArgs;
    assert Keys(y.args) - y.ignoreArgs - {PROTO} == Keys(y.args) - y.ignoreArgs;
    forall i, j | 0 <= i < |x.args| && 0 <= j < |y.args| && SameCountedKey(x, i, y, j)
      ensures x.args[i].key in Keys(x.args) - x.ignoreArgs - {PROTO}
      ensures y.args[j].key !in y.ignoreArgs && Keys(x.args) - x.ignoreArgs == Keys(y.args) - y.ignoreArgs ==>
                (SameExcept(x.args[i].value, y.args[j].value, {PROTO}) <==>
                   EqualUpToKeyOrder(x.args[i].value, y.args[j].value))
    {
      assert x.args[i].key in Keys(x.args);
      if y.args[j].key !in y.ignoreArgs {
        IgnoringAbsentKey(x.args[i].value, y.args[j].value, PROTO);
      }
    }
    KeysCount(x, y);
  }

  lemma KeysCount(x: KeyOptions, y: KeyOptions)
    ensures Keys(x.args) - x.ignoreArgs == Keys(y.args) - y.ignoreArgs ==>
              forall j :: 0 <= j < |y.args| && y.args[j].key in Keys(x.args) - x.ignoreArgs ==>
                  y.args[j].key !in y.ignoreArgs
  {
  }

  /** Without `__proto__` keys, two requests share a cache key exactly when they agree up to key order. */
  lemma CacheKeyUpToKeyOrder(x: KeyOptions, y: KeyOptions)
    requires WellFormed(Object(x.args)) && WellFormed(Object(y.args)) && ProtoFree(x) && ProtoFree(y)
    ensures GenerateCacheKey(x) == GenerateCacheKey(y) <==> ExactIdentity(x, y)
  {
    CacheKeyIdentity(x, y);
    IdentityUpToKeyOrder(x, y);
  }

  /** The request with the same cache key that has lost its `__proto__` keys. */
  function Stripped(x: KeyOptions): KeyOptions
    requires WellFormed(Object(x.args))
  {
    FilteredArgsWellFormed(x.args, x.ignoreArgs);
    x.(args := DeepSort(Object(FilteredArgs(x.args, x.ignoreArgs))).members, ignoreArgs := {})
  }

  lemma StrippedSharesKey(x: KeyOptions)
    requires WellFormed(Object(x.args))
    ensures WellFormed(Object(Stripped(x).args)) && ProtoFree(Stripped(x))
    ensures GenerateCacheKey(x) == GenerateCacheKey(Stripped(x))
    ensures !ProtoFree(x) ==> !ExactIdentity(x, Stripped(x))
  {
    var f, r := FilteredArgs(x.args, x.ignoreArgs), Stripped(x).args;
    FilteredArgsWellFormed(x.args, x.ignoreArgs);
    FilteredArgsMembers(x.args, x.ignoreArgs);
    FilteredKeys(x.args, x.ignoreArgs);
    DeepSortKeepsValue(Object(f));
    StrippedSame(x, f, r);
    hide SameExcept, SameArgs, DeepSort, HasKey, EqualArgs, GenerateCacheKey;
    NoProtoInside(r);
    CacheKeyIdentity(x, Stripped(x));
    StrippedDiffers(x, f, r);
  }

  lemma StrippedDiffers(x: KeyOptions, f: seq<Member>, r: seq<Member>)
    requires WellFormed(Object(x.args)) && WellFormed(Object(f)) && r == DeepSort(Object(f)).members
    requires forall e :: e in f <==> e in x.args && e.key !in x.ignoreArgs && e.key != PROTO
    requires PROTO !in Keys(r)
    ensures !ProtoFree(x) ==> !EqualArgs(x, x.(args := r, ignoreArgs := {}))
  {
    var y := x.(args := r, ignoreArgs := {});
    if PROTO in Keys(x.args) - x.ignoreArgs {
      assert PROTO !in Keys(y.args) - y.ignoreArgs;
    } else if !ProtoFree(x) {
      var i :| 0 <= i < |x.args| && x.args[i].key !in x.ignoreArgs && HasKey(x.args[i].value, PROTO);
      assert x.args[i].key in Keys(x.args) - x.ignoreArgs;
      SortedObject(f);
      hide HasKey, DeepSort, EqualUpToKeyOrder, SameExcept, ProtoFree, EqualArgs;
      SortingLosesProto(x.args[i].value);
      var e := Member(x.args[i].key, DeepSort(x.args[i].value));
      assert x.args[i] in f;
      assert e in r;
      var j :| 0 <= j < |r| && r[j] == e;
      DifferentArg(x, y, i, j);
    }
  }

  lemma DifferentArg(x: KeyOptions, y: KeyOptions, i: nat, j: nat)
    requires i < |x.args| && j < |y.args| && SameCountedKey(x, i, y, j)
    requires !EqualUpToKeyOrder(x.args[i].value, y.args[j].value)
    ensures !EqualArgs(x, y)
  {
    hide EqualUpToKeyOrder, Keys;
  }

  lemma NoProtoInside(r: seq<Member>)
    ensures !HasKey(Object(r), PROTO) ==>
              PROTO !in Keys(r) && forall j :: 0 <= j < |r| ==> !HasKey(r[j].value, PROTO)
  {
  }

  lemma StrippedSame(x: KeyOptions, f: seq<Member>, r: seq<Member>)
    requires DistinctKeys(x.args) && Keys(f) == Keys(x.args) - x.ignoreArgs - {PROTO}
    requires forall e :: e in f <==> e in x.args && e.key !in x.ignoreArgs && e.key != PROTO
    requires SameExcept(Object(f), Object(r), {PROTO})
    ensures SameArgs(x.args, x.ignoreArgs, r, {})
  {
    assert Keys(r) - {} - {PROTO} == Keys(r) - {PROTO};
    assert Keys(f) - {PROTO} == Keys(f);
    forall i, j | 0 <= i < |x.args| && 0 <= j < |r| && x.args[i].key == r[j].key
                  && x.args[i].key in Keys(x.args) - x.ignoreArgs - {PROTO}
      ensures SameExcept(x.args[i].value, r[j].value, {PROTO})
    {
      assert x.args[i] in f;
    }
  }

  /** And the condition is exact: it decides whether a request shares its key only with its equals. */
  lemma CacheKeyNeedsNoProto(x: KeyOptions)
    requires WellFormed(Object(x.args))
    ensures (forall y: KeyOptions :: WellFormed(Object(y.args)) && ProtoFree(y) ==>
               (GenerateCacheKey(x) == GenerateCacheKey(y) <==> ExactIdentity(x, y)))
            <==> ProtoFree(x)
  {
    StrippedSharesKey(x);
    hide ProtoFree, ExactIdentity, GenerateCacheKey, WellFormed, Stripped;
    if ProtoFree(x) {
      forall y: KeyOptions | WellFormed(Object(y.args)) && ProtoFree(y)
        ensures GenerateCacheKey(x) == GenerateCacheKey(y) <==> ExactIdentity(x, y)
      {
        CacheKeyUpToKeyOrder(x, y);
      }
    } else {
      assert ProtoFree(Stripped(x));
    }
  }

  // ---------------------------------------------------------------------------------------------
  // Approval fingerprints

  /** `${serverId}\n${toolName}\n${json}` under SHA-256. */
  function BuildRequestFingerprint(serverId: Text, toolName: Text, toolArgs: Json): Digest
    requires WellFormed(toolArgs)
  {
    Sha256(serverId + [LINE_FEED] + (toolName + [LINE_FEED] + DeterministicStringify(toolArgs)))
  }

  /**
   Equal fingerprints mean the same server, tool and arguments (up to key order and `__proto__` keys), for
   servers whose id holds no line feed. Tool names need no restriction: the printed arguments hold none either.
   */
  lemma FingerprintIdentity(s1: Text, t1: Text, a1: Json, s2: Text, t2: Text, a2: Json)
    requires LINE_FEED !in s1 && LINE_FEED !in s2
    requires WellFormed(a1) && WellFormed(a2)
    ensures BuildRequestFingerprint(s1, t1, a1) == BuildRequestFingerprint(s2, t2, a2)
            <==> s1 == s2 && t1 == t2 && SameExcept(a1, a2, {PROTO})
  {
    var j1, j2 := DeterministicStringify(a1), DeterministicStringify(a2);
    NoLineFeedInValue(DeepSort(a1), []);
    NoLineFeedInValue(DeepSort(a2), []);
    StringifyCanonical(a1, a2);
    if BuildRequestFingerprint(s1, t1, a1) == BuildRequestFingerprint(s2, t2, a2) {
      FirstSplitUnique(s1, s2, LINE_FEED, t1 + [LINE_FEED] + j1, t2 + [LINE_FEED] + j2);
      LastSplitUnique(t1, t2, LINE_FEED, j1, j2);
    }
  }

  /** For one server and tool no restriction is needed at all. */
  lemma SameFingerprintSameArgs(serverId: Text, toolName: Text, a: Json, b: Json)
    requires WellFormed(a) && WellFormed(b)
    ensures BuildRequestFingerprint(serverId, toolName, a) == BuildRequestFingerprint(serverId, toolName, b)
            <==> SameExcept(a, b, {PROTO})
  {
    StringifyCanonical(a, b);
    var j1, j2 := DeterministicStringify(a), DeterministicStringify(b);
    hide DeterministicStringify, SameExcept;
    if BuildRequestFingerprint(serverId, toolName, a) == BuildRequestFingerprint(serverId, toolName, b) {
      PrefixUnique(serverId + [LINE_FEED], toolName + [LINE_FEED] + j1, toolName + [LINE_FEED] + j2);
      PrefixUnique(toolName + [LINE_FEED], j1, j2);
    }
  }

  /** Up to key order alone, exactly for arguments without `__proto__` keys. */
  lemma FingerprintNeedsNoProto(serverId: Text, toolName: Text, a: Json)
    requires WellFormed(a)
    ensures (forall b :: WellFormed(b) && !HasKey(b, PROTO) ==>
               (BuildRequestFingerprint(serverId, toolName, a) == BuildRequestFingerprint(serverId, toolName, b)
                <==> EqualUpToKeyOrder(a, b)))
            <==> !HasKey(a, PROTO)
  {
    PromiseNeedsNoProto(a);
    hide WellFormed, HasKey, BuildRequestFingerprint, EqualUpToKeyOrder, DeterministicStringify;
    forall b | WellFormed(b) && !HasKey(b, PROTO)
      ensures BuildRequestFingerprint(serverId, toolName, a) == BuildRequestFingerprint(serverId, toolName, b)
              <==> DeterministicStringify(a) == DeterministicStringify(b)
    {
      SameFingerprintSameArgs(serverId, toolName, a, b);
      StringifyCanonical(a, b);
    }
  }
}
