/**
 `deepSort` and `deterministicStringify` (src/utils/deep-sort.ts): the canonical form behind cache
 keys and approval fingerprints.

 `deepSort` assigns the properties of every object again, in sorted key order. Two rules of the
 language decide what comes out: an object enumerates its array-index keys first, in numeric
 order, and then its other keys in the order they were added (section 10.1.11.1 of ECMA-262); and
 an assignment to `__proto__` sets the prototype instead of adding a property.
 */
module CanonicalJson {
  import opened JsonText
  import opened PrintInjectivity

  const PROTO: Text := [95, 95, 112, 114, 111, 116, 111, 95, 95]

  // ---------------------------------------------------------------------------------------------
  // Key orders

  /** The order of `Array.prototype.sort` on strings: by code units. */
  predicate LexLess(a: Text, b: Text) {
    b != [] && (a == [] || a[0] < b[0] || (a[0] == b[0] && LexLess(a[1..], b[1..])))
  }

  predicate IsDigit(u: CodeUnit) {
    48 <= u <= 57
  }

  const LAST_INDEX: Text := [52, 50, 57, 52, 57, 54, 55, 50, 57, 52]  // 4294967294

  /** The decimal text of an integer from 0 to 2^32 - 2, without leading zeros. */
  predicate IsArrayIndex(key: Text) {
    && |key| > 0
    && (forall i :: 0 <= i < |key| ==> IsDigit(key[i]))
    && (|key| > 1 ==> key[0] != 48)
    && (|key| < |LAST_INDEX| || (|key| == |LAST_INDEX| && !LexLess(LAST_INDEX, key)))
  }

  /** Numeric order of array indices. */
  predicate IndexLess(a: Text, b: Text) {
    |a| < |b| || (|a| == |b| && LexLess(a, b))
  }

  /** The order in which an object enumerates keys that were added in sorted order. */
  predicate Before(a: Text, b: Text) {
    if IsArrayIndex(a) && IsArrayIndex(b) then IndexLess(a, b)
    else if IsArrayIndex(a) || IsArrayIndex(b) then IsArrayIndex(a)
    else LexLess(a, b)
  }

  lemma {:induction false} LexLessOrder(a: Text, b: Text)
    ensures !LexLess(a, a)
    ensures LexLess(a, b) ==> !LexLess(b, a)
    ensures a == b || LexLess(a, b) || LexLess(b, a)
    decreases |a| + |b|
  {
    if a != [] {
      LexLessOrder(a[1..], if b == [] then [] else b[1..]);
      if b != [] {
        assert a == [a[0]] + a[1..] && b == [b[0]] + b[1..];
      }
    }
  }

  lemma {:induction false} LexLessTransitive(a: Text, b: Text, c: Text)
    requires LexLess(a, b) && LexLess(b, c)
    ensures LexLess(a, c)
  {
    if a != [] && a[0] == b[0] && b[0] == c[0] {
      LexLessTransitive(a[1..], b[1..], c[1..]);
    }
  }

  lemma BeforeOrder(a: Text, b: Text)
    ensures !Before(a, a)
    ensures Before(a, b) ==> !Before(b, a)
    ensures a == b || Before(a, b) || Before(b, a)
  {
    LexLessOrder(a, b);
  }

  lemma BeforeTransitive(a: Text, b: Text, c: Text)
    requires Before(a, b) && Before(b, c)
    ensures Before(a, c)
  {
    if LexLess(a, b) && LexLess(b, c) {
      LexLessTransitive(a, b, c);
    }
  }

  // ---------------------------------------------------------------------------------------------
  // Objects

  function Keys(members: seq<Member>): set<Text> {
    set i | 0 <= i < |members| :: members[i].key
  }

  predicate DistinctKeys(members: seq<Member>) {
    forall i, j :: 0 <= i < j < |members| ==> members[i].key != members[j].key
  }

  /** What every JavaScript object satisfies at every depth: no key twice. */
  predicate WellFormed(v: Json)
    decreases v
  {
    match v
    case Array(items) => forall i :: 0 <= i < |items| ==> WellFormed(items[i])
    case Object(members) => DistinctKeys(members) && forall i :: 0 <= i < |members| ==> WellFormed(members[i].value)
    case _ => true
  }

  function IndexOf(members: seq<Member>, key: Text): (i: nat)
    requires key in Keys(members)
    ensures i < |members| && members[i].key == key
  {
    if members[0].key == key then 0
    else
      assert key in Keys(members[1..]) by {
        var j :| 0 <= j < |members| && members[j].key == key;
        assert members[1..][j - 1] == members[j];
      }
      1 + IndexOf(members[1..], key)
  }

  /** Where a new array-index key goes: behind the smaller indices. */
  function InsertIndex(members: seq<Member>, m: Member): seq<Member> {
    if members != [] && IsArrayIndex(members[0].key) && IndexLess(members[0].key, m.key)
    then [members[0]] + InsertIndex(members[1..], m)
    else [m] + members
  }

  /** `object[key] = value`. */
  function SetProperty(members: seq<Member>, key: Text, value: Json): seq<Member> {
    if key == PROTO then members
    else if key in Keys(members) then members[IndexOf(members, key) := Member(key, value)]
    else if IsArrayIndex(key) then InsertIndex(members, Member(key, value))
    else members + [Member(key, value)]
  }

  function InsertKey(keys: seq<Text>, key: Text): seq<Text> {
    if keys != [] && LexLess(keys[0], key) then [keys[0]] + InsertKey(keys[1..], key) else [key] + keys
  }

  /** `Object.keys(value).sort()`. */
  function SortedKeys(members: seq<Member>): seq<Text> {
    if members == [] then [] else InsertKey(SortedKeys(members[1..]), members[0].key)
  }

  // ---------------------------------------------------------------------------------------------
  // deepSort

  function DeepSort(v: Json): Json
    requires WellFormed(v)
    decreases v, 0
  {
    match v
    case Array(items) => Array(DeepSortItems(items))
    case Object(members) =>
      SortedKeysMembers(members);
      Object(Assigned(members, SortedKeys(members)))
    case _ => v
  }

  function DeepSortItems(items: seq<Json>): (r: seq<Json>)
    requires forall i :: 0 <= i < |items| ==> WellFormed(items[i])
    ensures |r| == |items| && forall i :: 0 <= i < |items| ==> r[i] == DeepSort(items[i])
    decreases items
  {
    if items == [] then [] else [DeepSort(items[0])] + DeepSortItems(items[1..])
  }

  /** The object built by assigning the deep-sorted values of `keys`, one after the other. */
  function Assigned(members: seq<Member>, keys: seq<Text>): seq<Member>
    requires forall i :: 0 <= i < |members| ==> WellFormed(members[i].value)
    requires forall k :: k in keys ==> k in Keys(members)
    decreases members, |keys|
  {
    if keys == [] then []
    else
      var last := keys[|keys| - 1];
      SetProperty(Assigned(members, keys[..|keys| - 1]), last, DeepSort(members[IndexOf(members, last)].value))
  }

  function DeterministicStringify(v: Json): Text
    requires WellFormed(v)
  {
    Print(DeepSort(v))
  }

  lemma {:induction false} InsertKeyMembers(keys: seq<Text>, key: Text)
    ensures forall k :: k in InsertKey(keys, key) <==> k in keys || k == key
    ensures |InsertKey(keys, key)| == |keys| + 1
  {
    if keys != [] && LexLess(keys[0], key) {
      InsertKeyMembers(keys[1..], key);
      assert keys == [keys[0]] + keys[1..];
    }
  }

  lemma {:induction false} SortedKeysMembers(members: seq<Member>)
    ensures forall k :: k in SortedKeys(members) <==> k in Keys(members)
    ensures |SortedKeys(members)| == |members|
  {
    if members != [] {
      SortedKeysMembers(members[1..]);
      InsertKeyMembers(SortedKeys(members[1..]), members[0].key);
      forall k ensures k in Keys(members) <==> k in Keys(members[1..]) || k == members[0].key {
        if k in Keys(members) && k != members[0].key {
          var j :| 0 <= j < |members| && members[j].key == k;
          assert members[1..][j - 1] == members[j];
        }
        if k in Keys(members[1..]) {
          var j :| 0 <= j < |members[1..]| && members[1..][j].key == k;
          assert members[j + 1].key == k;
        }
      }
    }
  }

  // ---------------------------------------------------------------------------------------------
  // The sorted form of an object

  predicate LexSorted(keys: seq<Text>) {
    forall i, j :: 0 <= i < j < |keys| ==> LexLess(keys[i], keys[j])
  }

  predicate Ordered(members: seq<Member>) {
    forall i, j :: 0 <= i < j < |members| ==> Before(members[i].key, members[j].key)
  }

  lemma {:induction false} InsertKeySorted(keys: seq<Text>, key: Text)
    requires LexSorted(keys) && key !in keys
    ensures LexSorted(InsertKey(keys, key))
  {
    if keys != [] {
      LexLessOrder(keys[0], key);
      var r := InsertKey(keys, key);
      if LexLess(keys[0], key) {
        InsertKeySorted(keys[1..], key);
        InsertKeyMembers(keys[1..], key);
        forall j | 0 < j < |r| ensures LexLess(r[0], r[j]) {
          assert r[j] in InsertKey(keys[1..], key);
          if r[j] != key {
            var i :| 0 <= i < |keys[1..]| && keys[1..][i] == r[j];
            assert keys[i + 1] == r[j];
          }
        }
      } else {
        forall j | 0 < j < |r| ensures LexLess(r[0], r[j]) {
          assert r[j] == keys[j - 1];
          if j > 1 { LexLessTransitive(key, keys[0], keys[j - 1]); }
        }
      }
    }
  }

  lemma {:induction false} SortedKeysSorted(members: seq<Member>)
    requires DistinctKeys(members)
    ensures LexSorted(SortedKeys(members))
  {
    if members != [] {
      SortedKeysSorted(members[1..]);
      SortedKeysMembers(members[1..]);
      assert members[0].key !in Keys(members[1..]) by {
        forall j | 0 <= j < |members[1..]| ensures members[1..][j].key != members[0].key {
          assert members[1..][j] == members[j + 1];
        }
      }
      InsertKeySorted(SortedKeys(members[1..]), members[0].key);
    }
  }

  lemma {:induction false} InsertIndexOrdered(members: seq<Member>, m: Member)
    requires Ordered(members) && m.key !in Keys(members) && IsArrayIndex(m.key)
    ensures Ordered(InsertIndex(members, m))
    ensures forall e :: e in InsertIndex(members, m) <==> e in members || e == m
  {
    var r := InsertIndex(members, m);
    if members != [] {
      assert members[0].key in Keys(members);
      BeforeOrder(members[0].key, m.key);
      if IsArrayIndex(members[0].key) && IndexLess(members[0].key, m.key) {
        assert m.key !in Keys(members[1..]) by {
          forall j | 0 <= j < |members[1..]| ensures members[1..][j].key != m.key {
            assert members[1..][j] == members[j + 1];
            assert members[j + 1].key in Keys(members);
          }
        }
        InsertIndexOrdered(members[1..], m);
        forall j | 0 < j < |r| ensures Before(r[0].key, r[j].key) {
          assert r[j] in InsertIndex(members[1..], m);
          if r[j] != m {
            var i :| 0 <= i < |members[1..]| && members[1..][i] == r[j];
            assert members[i + 1] == r[j];
          }
        }
        assert members == [members[0]] + members[1..];
      } else {
        forall j | 0 < j < |r| ensures Before(r[0].key, r[j].key) {
          assert r[j] == members[j - 1];
          if j > 1 { BeforeTransitive(m.key, members[0].key, members[j - 1].key); }
        }
      }
    }
  }

  /** What assigning keys in sorted order builds: the enumeration order, and nothing but the values. */
  lemma {:induction false} AssignedShape(members: seq<Member>, keys: seq<Text>)
    requires forall i :: 0 <= i < |members| ==> WellFormed(members[i].value)
    requires forall k :: k in keys ==> k in Keys(members)
    requires LexSorted(keys)
    ensures Ordered(Assigned(members, keys))
    ensures forall e :: e in Assigned(members, keys) <==>
              e.key in keys && e.key != PROTO && e.value == DeepSort(members[IndexOf(members, e.key)].value)
    decreases |keys|
  {
    hide SetProperty, Ordered, LexLess, DeepSort, Keys, IndexOf;
    if keys == [] {
      NothingOrdered();
    } else {
      var n := |keys| - 1;
      var before := Assigned(members, keys[..n]);
      AssignedShape(members, keys[..n]);
      var last := Member(keys[n], DeepSort(members[IndexOf(members, keys[n])].value));
      assert keys == keys[..n] + [keys[n]];
      forall i | 0 <= i < |before| ensures LexLess(before[i].key, last.key) {
        assert before[i] in before;
      }
      LexLessOrder(keys[n], keys[n]);
      assert keys[n] !in keys[..n];
      SetLastProperty(before, last);
      var r := Assigned(members, keys);
      assert r == SetProperty(before, last.key, last.value);
      hide Assigned;
      forall e
        ensures e in r <==>
                  e.key in keys && e.key != PROTO && e.value == DeepSort(members[IndexOf(members, e.key)].value)
      {
        assert e.key in keys <==> e.key in keys[..n] || e.key == keys[n];
      }
    }
  }

  lemma NothingOrdered()
    ensures Ordered([])
  {
  }

  /** Assigning a key that sorts after all others. */
  lemma SetLastProperty(before: seq<Member>, m: Member)
    requires Ordered(before) && forall i :: 0 <= i < |before| ==> LexLess(before[i].key, m.key)
    ensures var r := SetProperty(before, m.key, m.value);
            && Ordered(r)
            && forall e :: e in r <==> e in before || (e == m && m.key != PROTO)
  {
    LexLessOrder(m.key, m.key);
    assert m.key !in Keys(before);
    if m.key != PROTO {
      hide LexLess;
      if IsArrayIndex(m.key) {
        InsertIndexOrdered(before, m);
      }
    }
  }

  /** The properties of a sorted object: those of the original but `__proto__`, with sorted values. */
  lemma SortedObject(members: seq<Member>)
    requires WellFormed(Object(members))
    ensures var r := DeepSort(Object(members)).members;
            && Ordered(r)
            && (forall e :: e in r <==>
                  exists i :: 0 <= i < |members| && members[i].key != PROTO
                              && e == Member(members[i].key, DeepSort(members[i].value)))
  {
    var keys := SortedKeys(members);
    SortedKeysMembers(members);
    SortedKeysSorted(members);
    AssignedShape(members, keys);
    var r := DeepSort(Object(members)).members;
    assert r == Assigned(members, keys);
    forall e
      ensures e in r <==> exists i :: 0 <= i < |members| && members[i].key != PROTO
                                      && e == Member(members[i].key, DeepSort(members[i].value))
    {
      if e in r {
        var i := IndexOf(members, e.key);
        assert e == Member(members[i].key, DeepSort(members[i].value));
      }
      if i :| 0 <= i < |members| && members[i].key != PROTO && e == Member(members[i].key, DeepSort(members[i].value)) {
        assert members[i].key in Keys(members);
        assert IndexOf(members, members[i].key) == i;
      }
    }
  }

  lemma HeadIsMember(x: seq<Member>)
    ensures x == [] || x[0] in x
  {
  }

  /** An ordered object is determined by its set of properties. */
  lemma {:induction false} OrderedUnique(x: seq<Member>, y: seq<Member>)
    requires Ordered(x) && Ordered(y)
    requires forall e :: e in x <==> e in y
    ensures x == y
  {
    if x == [] {
      HeadIsMember(y);
    } else {
      assert x[0] in y;
      var j :| 0 <= j < |y| && y[j] == x[0];
      assert y[0] in x;
      var i :| 0 <= i < |x| && x[i] == y[0];
      BeforeOrder(x[0].key, y[0].key);
      assert x[0] == y[0];
      forall e ensures e in x[1..] <==> e in y[1..] {
        TailMember(x, e);
        TailMember(y, e);
      }
      OrderedUnique(x[1..], y[1..]);
      assert x == [x[0]] + x[1..] && y == [y[0]] + y[1..];
    }
  }

  lemma TailMember(x: seq<Member>, e: Member)
    requires Ordered(x) && x != []
    ensures e in x[1..] <==> e in x && e != x[0]
  {
    if e in x[1..] {
      var i :| 0 <= i < |x[1..]| && x[1..][i] == e;
      assert x[i + 1] == e;
      BeforeOrder(x[0].key, x[i + 1].key);
    }
    if e in x && e != x[0] {
      var i :| 0 <= i < |x| && x[i] == e;
      assert x[1..][i - 1] == e;
    }
  }

  // ---------------------------------------------------------------------------------------------
  // Canonicity

  /** Equality up to the order of object keys at every depth, not looking at the `ignored` keys. */
  predicate SameExcept(v: Json, w: Json, ignored: set<Text>)
    decreases v
  {
    match (v, w)
    case (Array(xs), Array(ys)) =>
      |xs| == |ys| && forall i :: 0 <= i < |xs| ==> SameExcept(xs[i], ys[i], ignored)
    case (Object(xs), Object(ys)) =>
      && Keys(xs) - ignored == Keys(ys) - ignored
      && forall i, j :: 0 <= i < |xs| && 0 <= j < |ys| && xs[i].key == ys[j].key && xs[i].key !in ignored
           ==> SameExcept(xs[i].value, ys[j].value, ignored)
    case _ => v == w
  }

  predicate EqualUpToKeyOrder(v: Json, w: Json) {
    SameExcept(v, w, {})
  }

  predicate HasKey(v: Json, key: Text)
    decreases v
  {
    match v
    case Array(items) => exists i :: 0 <= i < |items| && HasKey(items[i], key)
    case Object(members) => exists i :: 0 <= i < |members| && (members[i].key == key || HasKey(members[i].value, key))
    case _ => false
  }

  /** The values of the two objects sort alike exactly where they are alike. */
  ghost predicate ValuesSortAlike(a: seq<Member>, b: seq<Member>)
    requires WellFormed(Object(a)) && WellFormed(Object(b))
  {
    forall i, j :: 0 <= i < |a| && 0 <= j < |b| && a[i].key == b[j].key && a[i].key != PROTO ==>
      (DeepSort(a[i].value) == DeepSort(b[j].value) <==> SameExcept(a[i].value, b[j].value, {PROTO}))
  }

  lemma SortedObjectsSame(a: seq<Member>, b: seq<Member>)
    requires WellFormed(Object(a)) && WellFormed(Object(b)) && ValuesSortAlike(a, b)
    ensures DeepSort(Object(a)) == DeepSort(Object(b)) <==> SameExcept(Object(a), Object(b), {PROTO})
  {
    if SameExcept(Object(a), Object(b), {PROTO}) { SameObjectsSort(a, b); }
    if DeepSort(Object(a)) == DeepSort(Object(b)) { SortedObjectsWereSame(a, b); }
  }

  lemma SameObjectsSort(a: seq<Member>, b: seq<Member>)
    requires WellFormed(Object(a)) && WellFormed(Object(b)) && ValuesSortAlike(a, b)
    requires SameExcept(Object(a), Object(b), {PROTO})
    ensures DeepSort(Object(a)) == DeepSort(Object(b))
  {
    var ra, rb := DeepSort(Object(a)).members, DeepSort(Object(b)).members;
    SortedObject(a);
    SortedObject(b);
    hide DeepSort;
    forall e ensures e in ra <==> e in rb {
      if e in ra { SortedMemberMoves(a, b, e); }
      if e in rb { SortedMemberMoves(b, a, e); }
    }
    hide *;
    OrderedUnique(ra, rb);
  }

  lemma SortedObjectsWereSame(a: seq<Member>, b: seq<Member>)
    requires WellFormed(Object(a)) && WellFormed(Object(b)) && ValuesSortAlike(a, b)
    requires DeepSort(Object(a)) == DeepSort(Object(b))
    ensures SameExcept(Object(a), Object(b), {PROTO})
  {
    SortedKeysAgree(a, b);
    SortedKeysAgree(b, a);
    SortedObject(a);
    SortedObject(b);
    hide DeepSort;
    forall i, j | 0 <= i < |a| && 0 <= j < |b| && a[i].key == b[j].key && a[i].key != PROTO
      ensures SameExcept(a[i].value, b[j].value, {PROTO})
    {
      var e := Member(a[i].key, DeepSort(a[i].value));
      assert e in DeepSort(Object(b)).members;
      var k :| 0 <= k < |b| && b[k].key != PROTO && e == Member(b[k].key, DeepSort(b[k].value));
      assert k == j;
    }
  }

  lemma SortedMemberMoves(a: seq<Member>, b: seq<Member>, e: Member)
    requires WellFormed(Object(a)) && WellFormed(Object(b))
    requires Keys(a) - {PROTO} == Keys(b) - {PROTO}
    requires forall i, j :: 0 <= i < |a| && 0 <= j < |b| && a[i].key == b[j].key && a[i].key != PROTO ==>
               DeepSort(a[i].value) == DeepSort(b[j].value)
    requires e in DeepSort(Object(a)).members
    ensures e in DeepSort(Object(b)).members
  {
    SortedObject(a);
    SortedObject(b);
    var i :| 0 <= i < |a| && a[i].key != PROTO && e == Member(a[i].key, DeepSort(a[i].value));
    assert a[i].key in Keys(a) - {PROTO};
    var j := IndexOf(b, a[i].key);
    assert e == Member(b[j].key, DeepSort(b[j].value));
  }

  lemma SortedKeysAgree(a: seq<Member>, b: seq<Member>)
    requires WellFormed(Object(a)) && WellFormed(Object(b))
    requires DeepSort(Object(a)) == DeepSort(Object(b))
    ensures Keys(a) - {PROTO} <= Keys(b) - {PROTO}
  {
    SortedObject(a);
    SortedObject(b);
    forall k | k in Keys(a) - {PROTO} ensures k in Keys(b) - {PROTO} {
      var i := IndexOf(a, k);
      assert Member(a[i].key, DeepSort(a[i].value)) in DeepSort(Object(b)).members;
    }
  }

  /** Two values sort to the same value exactly when they differ only in key order and `__proto__`. */
  lemma {:induction false} DeepSortCanonical(v: Json, w: Json)
    requires WellFormed(v) && WellFormed(w)
    ensures DeepSort(v) == DeepSort(w) <==> SameExcept(v, w, {PROTO})
    decreases v
  {
    match (v, w)
    case (Array(xs), Array(ys)) =>
      forall i | 0 <= i < |xs| && i < |ys|
        ensures DeepSort(xs[i]) == DeepSort(ys[i]) <==> SameExcept(xs[i], ys[i], {PROTO})
      {
        DeepSortCanonical(xs[i], ys[i]);
      }
      if DeepSort(v) == DeepSort(w) {
        assert DeepSortItems(xs) == DeepSortItems(ys);
        forall i | 0 <= i < |xs| ensures SameExcept(xs[i], ys[i], {PROTO}) {
          assert DeepSortItems(xs)[i] == DeepSortItems(ys)[i];
        }
      }
    case (Object(a), Object(b)) =>
      forall i, j | 0 <= i < |a| && 0 <= j < |b| && a[i].key == b[j].key && a[i].key != PROTO
        ensures DeepSort(a[i].value) == DeepSort(b[j].value) <==> SameExcept(a[i].value, b[j].value, {PROTO})
      {
        DeepSortCanonical(a[i].value, b[j].value);
      }
      SortedObjectsSame(a, b);
    case _ =>
  }

  /** The text is canonical: equal texts exactly for values that differ in key order and `__proto__` only. */
  lemma StringifyCanonical(v: Json, w: Json)
    requires WellFormed(v) && WellFormed(w)
    ensures DeterministicStringify(v) == DeterministicStringify(w) <==> SameExcept(v, w, {PROTO})
  {
    DeepSortCanonical(v, w);
    PrintInjective(DeepSort(v), DeepSort(w));
  }

  lemma {:induction false} IgnoringAbsentKey(v: Json, w: Json, key: Text)
    requires !HasKey(v, key) && !HasKey(w, key)
    ensures SameExcept(v, w, {key}) <==> EqualUpToKeyOrder(v, w)
    decreases v
  {
    match (v, w)
    case (Array(xs), Array(ys)) =>
      forall i | 0 <= i < |xs| && i < |ys|
        ensures SameExcept(xs[i], ys[i], {key}) <==> EqualUpToKeyOrder(xs[i], ys[i])
      {
        IgnoringAbsentKey(xs[i], ys[i], key);
      }
    case (Object(a), Object(b)) =>
      assert key !in Keys(a) && key !in Keys(b);
      assert Keys(a) - {key} == Keys(a) - {} && Keys(b) - {key} == Keys(b) - {};
      forall i, j | 0 <= i < |a| && 0 <= j < |b| && a[i].key == b[j].key
        ensures SameExcept(a[i].value, b[j].value, {key}) <==> EqualUpToKeyOrder(a[i].value, b[j].value)
      {
        IgnoringAbsentKey(a[i].value, b[j].value, key);
      }
    case _ =>
  }

  /** The promise of the module, for values in which no object has a `__proto__` key. */
  lemma StringifyUpToKeyOrder(v: Json, w: Json)
    requires WellFormed(v) && WellFormed(w)
    requires !HasKey(v, PROTO) && !HasKey(w, PROTO)
    ensures DeterministicStringify(v) == DeterministicStringify(w) <==> EqualUpToKeyOrder(v, w)
  {
    StringifyCanonical(v, w);
    IgnoringAbsentKey(v, w, PROTO);
  }

  /** Without that condition it fails: an own `__proto__` property is lost. */
  lemma ProtoIsLost()
    ensures var v, w := Object([Member(PROTO, Null)]), Object([]);
            && WellFormed(v) && WellFormed(w)
            && DeterministicStringify(v) == DeterministicStringify(w)
            && !EqualUpToKeyOrder(v, w)
  {
    var v, w := Object([Member(PROTO, Null)]), Object([]);
    assert v.members[0].key in Keys(v.members);
    assert PROTO in Keys(v.members) - {} && PROTO !in Keys(w.members) - {};
    StringifyCanonical(v, w);
  }

  /** Sorting changes nothing else: the sorted value is the same value, and sorting again is idle. */
  lemma {:induction false} DeepSortKeepsValue(v: Json)
    requires WellFormed(v)
    ensures WellFormed(DeepSort(v)) && !HasKey(DeepSort(v), PROTO)
    ensures SameExcept(v, DeepSort(v), {PROTO})
    ensures DeepSort(DeepSort(v)) == DeepSort(v)
    decreases v
  {
    match v {
    case Array(items) =>
      forall i | 0 <= i < |items|
        ensures WellFormed(DeepSort(items[i])) && !HasKey(DeepSort(items[i]), PROTO)
        ensures SameExcept(items[i], DeepSort(items[i]), {PROTO})
      {
        DeepSortKeepsValue(items[i]);
      }
    case Object(members) =>
      var r := DeepSort(v).members;
      SortedObject(members);
      forall i | 0 <= i < |members|
        ensures WellFormed(DeepSort(members[i].value)) && !HasKey(DeepSort(members[i].value), PROTO)
        ensures SameExcept(members[i].value, DeepSort(members[i].value), {PROTO})
      {
        DeepSortKeepsValue(members[i].value);
      }
      SortedObjectIsObject(members);
    case _ =>
    }
    DeepSortCanonical(v, DeepSort(v));
  }

  /** The members of a sorted object come from those of the original. */
  predicate ComesFrom(members: seq<Member>, e: Member)
    requires WellFormed(Object(members))
  {
    exists i :: 0 <= i < |members| && members[i].key != PROTO && e == Member(members[i].key, DeepSort(members[i].value))
  }

  lemma SortedMembers(members: seq<Member>)
    requires WellFormed(Object(members))
    ensures var r := DeepSort(Object(members)).members;
            && DistinctKeys(r)
            && (forall j :: 0 <= j < |r| ==> ComesFrom(members, r[j]))
            && Keys(members) - {PROTO} == Keys(r) - {PROTO}
  {
    var r := DeepSort(Object(members)).members;
    SortedObject(members);
    hide DeepSort;
    forall j | 0 <= j < |r| ensures ComesFrom(members, r[j]) {
      assert r[j] in r;
    }
    forall i, j | 0 <= i < j < |r| ensures r[i].key != r[j].key {
      BeforeOrder(r[i].key, r[j].key);
    }
    forall k ensures k in Keys(members) - {PROTO} <==> k in Keys(r) - {PROTO} {
      if k in Keys(members) - {PROTO} {
        var i := IndexOf(members, k);
        var e := Member(members[i].key, DeepSort(members[i].value));
        assert e in r;
        var j :| 0 <= j < |r| && r[j] == e;
        assert r[j].key == k;
      }
    }
  }

  lemma SortedObjectIsObject(members: seq<Member>)
    requires WellFormed(Object(members))
    requires forall i :: 0 <= i < |members| ==>
               && WellFormed(DeepSort(members[i].value)) && !HasKey(DeepSort(members[i].value), PROTO)
               && SameExcept(members[i].value, DeepSort(members[i].value), {PROTO})
    ensures var w := DeepSort(Object(members));
            WellFormed(w) && !HasKey(w, PROTO) && SameExcept(Object(members), w, {PROTO})
  {
    SortedMembers(members);
    var r := DeepSort(Object(members)).members;
    assert DeepSort(Object(members)) == Object(r);
    hide DeepSort, Keys;
    forall i, j | 0 <= i < |members| && 0 <= j < |r| && members[i].key == r[j].key && members[i].key !in {PROTO}
      ensures SameExcept(members[i].value, r[j].value, {PROTO})
    {
      var k :| 0 <= k < |members| && members[k].key != PROTO
               && r[j] == Member(members[k].key, DeepSort(members[k].value));
      assert k == i;
    }
  }

  /** A value with a `__proto__` key anywhere is no longer the same value once it is sorted. */
  lemma {:induction false} SortingLosesProto(v: Json)
    requires WellFormed(v) && HasKey(v, PROTO)
    ensures !EqualUpToKeyOrder(v, DeepSort(v))
    decreases v
  {
    DeepSortKeepsValue(v);
    match v
    case Array(items) =>
      var i :| 0 <= i < |items| && HasKey(items[i], PROTO);
      SortingLosesProto(items[i]);
    case Object(members) =>
      var i :| 0 <= i < |members| && (members[i].key == PROTO || HasKey(members[i].value, PROTO));
      LostMember(members, i);
    case _ =>
  }

  lemma LostMember(members: seq<Member>, i: nat)
    requires WellFormed(Object(members)) && i < |members|
    requires members[i].key == PROTO || HasKey(members[i].value, PROTO)
    ensures !EqualUpToKeyOrder(Object(members), DeepSort(Object(members)))
    decreases Object(members), 0
  {
    var r := DeepSort(Object(members)).members;
    SortedObject(members);
    if members[i].key == PROTO {
      assert PROTO in Keys(members) - {};
      forall j | 0 <= j < |r| ensures r[j].key != PROTO {
        assert r[j] in r;
      }
      assert PROTO !in Keys(r) - {};
    } else {
      SortingLosesProto(members[i].value);
      var e := Member(members[i].key, DeepSort(members[i].value));
      assert e in r;
      var j :| 0 <= j < |r| && r[j] == e;
      assert !SameExcept(members[i].value, r[j].value, {});
    }
  }

  /**
   The condition is exact: a value keeps the promise towards all values without a `__proto__` key if and
   only if it has none itself.
   */
  lemma PromiseNeedsNoProto(v: Json)
    requires WellFormed(v)
    ensures (forall w :: WellFormed(w) && !HasKey(w, PROTO) ==>
               (DeterministicStringify(v) == DeterministicStringify(w) <==> EqualUpToKeyOrder(v, w)))
            <==> !HasKey(v, PROTO)
  {
    if HasKey(v, PROTO) {
      var w := DeepSort(v);
      DeepSortKeepsValue(v);
      SortingLosesProto(v);
      assert DeterministicStringify(v) == DeterministicStringify(w);
    } else {
      forall w | WellFormed(w) && !HasKey(w, PROTO)
        ensures DeterministicStringify(v) == DeterministicStringify(w) <==> EqualUpToKeyOrder(v, w)
      {
        StringifyUpToKeyOrder(v, w);
      }
    }
  }

  // ---------------------------------------------------------------------------------------------
  // The loops

  /** `deepSort` as the source runs it: a mapping loop for arrays, an assigning loop for objects. */
  method SortValue(value: Json) returns (result: Json)
    requires WellFormed(value)
    ensures result == DeepSort(value)
    decreases value
  {
    match value
    case Array(items) =>
      var mapped: seq<Json> := [];
      for i := 0 to |items|
        invariant |mapped| == i
        invariant forall j :: 0 <= j < i ==> mapped[j] == DeepSort(items[j])
      {
        var item := SortValue(items[i]);
        mapped := mapped + [item];
      }
      assert mapped == DeepSortItems(items);
      result := Array(mapped);
    case Object(members) =>
      var sorted: seq<Member> := [];
      var keys := SortedKeys(members);
      SortedKeysMembers(members);
      for i := 0 to |keys|
        invariant sorted == Assigned(members, keys[..i])
      {
        var item := SortValue(members[IndexOf(members, keys[i])].value);
        sorted := SetProperty(sorted, keys[i], item);
        assert keys[..i + 1][..i] == keys[..i];
      }
      assert keys[..|keys|] == keys;
      result := Object(sorted);
    case _ =>
      result := value;
  }
}
