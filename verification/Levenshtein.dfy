/**
 Suggestions for misspelt configuration keys (src/config/loader.ts:218-256): the Levenshtein table, proved
 to give the least length of any edit script, and the choice of the closest known key.
 */
module Levenshtein {
  import opened Numbers
  import opened Wrappers
  import opened JsonText

  const MAX_DISTANCE := 3

  function Init(t: Text): Text
    requires t != []
  {
    t[..|t| - 1]
  }

  function Last(t: Text): CodeUnit
    requires t != []
  {
    t[|t| - 1]
  }

  /** The recurrence of the table. */
  function Distance(a: Text, b: Text): nat
    decreases |a| + |b|
  {
    if a == [] then |b|
    else if b == [] then |a|
    else
      Min(Min(Distance(Init(a), b) + 1, Distance(a, Init(b)) + 1),
          Distance(Init(a), Init(b)) + if Last(a) == Last(b) then 0 else 1)
  }

  // ---------------------------------------------------------------------------------------------
  // Edit scripts

  datatype Edit = Insert(at: nat, unit: CodeUnit) | Delete(at: nat) | Substitute(at: nat, unit: CodeUnit)

  /** Edits are made one after the other, each at a position of the text as it is then. */
  datatype Script = Nothing | Then(past: Script, edit: Edit)

  predicate Fits(e: Edit, t: Text) {
    if e.Insert? then e.at <= |t| else e.at < |t|
  }

  function Apply(e: Edit, t: Text): Text
    requires Fits(e, t)
  {
    match e
    case Insert(at, unit) => t[..at] + [unit] + t[at..]
    case Delete(at) => t[..at] + t[at + 1..]
    case Substitute(at, unit) => t[..at] + [unit] + t[at + 1..]
  }

  predicate Valid(s: Script, t: Text)
    decreases s, 0
  {
    match s
    case Nothing => true
    case Then(past, e) => Valid(past, t) && Fits(e, Result(past, t))
  }

  function Result(s: Script, t: Text): Text
    requires Valid(s, t)
    decreases s, 1
  {
    match s
    case Nothing => t
    case Then(past, e) => Apply(e, Result(past, t))
  }

  function Length(s: Script): nat {
    match s
    case Nothing => 0
    case Then(past, _) => Length(past) + 1
  }

  // ---------------------------------------------------------------------------------------------
  // No script is shorter

  lemma Edges(a: Text, b: Text)
    ensures a == [] ==> Distance(a, b) == |b|
    ensures b == [] ==> Distance(a, b) == |a|
  {
  }

  lemma Recurrence(a: Text, b: Text)
    requires a != [] && b != []
    ensures var corner := Distance(Init(a), Init(b)) + if Last(a) == Last(b) then 0 else 1;
            Distance(a, b) == Min(Min(Distance(Init(a), b) + 1, Distance(a, Init(b)) + 1), corner)
  {
    hide Min, Init, Last;
  }

  /** One unit more on either side costs at most one. */
  lemma OneMore(a: Text, b: Text)
    ensures a != [] ==> Distance(a, b) <= Distance(Init(a), b) + 1
    ensures b != [] ==> Distance(a, b) <= Distance(a, Init(b)) + 1
  {
    Edges(a, b);
    if a != [] && b != [] {
      Recurrence(a, b);
    } else if a != [] {
      Edges(Init(a), b);
    } else if b != [] {
      Edges(a, Init(b));
    }
    hide Distance;
  }

  lemma InitSnoc(p: Text, u: CodeUnit)
    ensures p + [u] != [] && Init(p + [u]) == p && Last(p + [u]) == u
  {
  }

  lemma {:induction false} DropAtEnd(a: Text, p: Text, u: CodeUnit)
    ensures Distance(a, p) <= Distance(a, p + [u]) + 1
    decreases |a|
  {
    InitSnoc(p, u);
    if a == [] {
      Edges(a, p);
      Edges(a, p + [u]);
    } else {
      DropAtEnd(Init(a), p, u);
      Recurrence(a, p + [u]);
      OneMore(a, p);
    }
    hide Distance;
  }

  lemma {:induction false} SwapAtEnd(a: Text, p: Text, u: CodeUnit, v: CodeUnit)
    ensures Distance(a, p + [v]) <= Distance(a, p + [u]) + 1
    decreases |a|
  {
    InitSnoc(p, u);
    InitSnoc(p, v);
    if a == [] {
      Edges(a, p + [u]);
      Edges(a, p + [v]);
    } else {
      SwapAtEnd(Init(a), p, u, v);
      Recurrence(a, p + [u]);
      Recurrence(a, p + [v]);
    }
    hide Distance;
  }

  /** Replacing the end of a text, at most one unit by at most one unit, costs at most one. */
  lemma EditAtEnd(a: Text, p: Text, x: Text, y: Text)
    requires |x| <= 1 && |y| <= 1
    ensures Distance(a, p + y) <= Distance(a, p + x) + 1
  {
    hide Distance;
    if y == [] {
      assert p + y == p;
      if x == [] {
        assert p + x == p;
      } else {
        DropAtEnd(a, p, x[0]);
        assert x == [x[0]];
      }
    } else {
      assert y == [y[0]];
      InitSnoc(p, y[0]);
      if x == [] {
        assert p + x == p;
        OneMore(a, p + y);
      } else {
        assert x == [x[0]];
        SwapAtEnd(a, p, x[0], y[0]);
      }
    }
  }

  /** So does the same anywhere inside. */
  lemma {:induction false} EditInside(a: Text, p: Text, x: Text, y: Text, s: Text)
    requires |x| <= 1 && |y| <= 1
    ensures Distance(a, p + y + s) <= Distance(a, p + x + s) + 1
    decreases |a| + |s|
  {
    hide Distance;
    if s == [] {
      EditAtEnd(a, p, x, y);
      assert p + y + s == p + y && p + x + s == p + x;
    } else {
      InitTail(p + x, s);
      InitTail(p + y, s);
      EditInside(a, p, x, y, Init(s));
      if a == [] {
        Edges(a, p + x + s);
        Edges(a, p + y + s);
      } else {
        EditInside(Init(a), p, x, y, s);
        EditInside(Init(a), p, x, y, Init(s));
        Recurrence(a, p + x + s);
        Recurrence(a, p + y + s);
      }
    }
  }

  lemma InitTail(p: Text, s: Text)
    requires s != []
    ensures p + s != [] && Init(p + s) == p + Init(s) && Last(p + s) == Last(s)
  {
  }

  lemma EditCostsOne(a: Text, b: Text, e: Edit)
    requires Fits(e, b)
    ensures Distance(a, Apply(e, b)) <= Distance(a, b) + 1
  {
    hide Distance;
    var p := b[..e.at];
    match e
    case Insert(at, unit) => {
      EditInside(a, p, [], [unit], b[at..]);
      assert p + [] + b[at..] == b;
    }
    case Delete(at) => {
      EditInside(a, p, [b[at]], [], b[at + 1..]);
      assert p + [b[at]] + b[at + 1..] == b;
      assert p + [] + b[at + 1..] == Apply(e, b);
    }
    case Substitute(at, unit) => {
      EditInside(a, p, [b[at]], [unit], b[at + 1..]);
      assert p + [b[at]] + b[at + 1..] == b;
    }
  }

  lemma {:induction false} DistanceToSelf(a: Text)
    ensures Distance(a, a) == 0
  {
    hide Distance;
    if a == [] {
      Edges(a, a);
    } else {
      DistanceToSelf(Init(a));
      Recurrence(a, a);
    }
  }

  lemma {:induction false} NoScriptIsShorter(s: Script, a: Text)
    requires Valid(s, a)
    ensures Distance(a, Result(s, a)) <= Length(s)
  {
    match s
    case Nothing => DistanceToSelf(a);
    case Then(past, e) => {
      NoScriptIsShorter(past, a);
      EditCostsOne(a, Result(past, a), e);
    }
  }

  // ---------------------------------------------------------------------------------------------
  // And one script is as short

  /** A script works as well before a tail that it does not touch. */
  lemma {:induction false} BeforeTail(s: Script, a: Text, tail: Text)
    requires Valid(s, a)
    ensures Valid(s, a + tail) && Result(s, a + tail) == Result(s, a) + tail
  {
    match s
    case Nothing =>
    case Then(past, e) => {
      BeforeTail(past, a, tail);
      ApplyBeforeTail(e, Result(past, a), tail);
    }
  }

  lemma ApplyBeforeTail(e: Edit, t: Text, tail: Text)
    requires Fits(e, t)
    ensures Fits(e, t + tail) && Apply(e, t + tail) == Apply(e, t) + tail
  {
    CutBeforeTail(t, e.at, tail);
    if !e.Insert? { CutBeforeTail(t, e.at + 1, tail); }
    match e
    case Insert(at, unit) => Regroup(t[..at] + [unit], t[at..], tail);
    case Delete(at) => Regroup(t[..at], t[at + 1..], tail);
    case Substitute(at, unit) => Regroup(t[..at] + [unit], t[at + 1..], tail);
  }

  lemma CutBeforeTail(t: Text, at: nat, tail: Text)
    requires at <= |t|
    ensures (t + tail)[..at] == t[..at] && (t + tail)[at..] == t[at..] + tail
  {
  }

  lemma Regroup(p: Text, s: Text, tail: Text)
    ensures p + (s + tail) == p + s + tail
  {
  }

  function Shortest(a: Text, b: Text): Script
    decreases |a| + |b|
  {
    if b == [] then if a == [] then Nothing else Then(Shortest(Init(a), b), Delete(0))
    else if a == [] then Then(Shortest(a, Init(b)), Insert(|b| - 1, Last(b)))
    else if Distance(a, b) == Distance(Init(a), b) + 1 then Then(Shortest(Init(a), b), Delete(|b|))
    else if Distance(a, b) == Distance(a, Init(b)) + 1 then Then(Shortest(a, Init(b)), Insert(|b| - 1, Last(b)))
    else if Last(a) == Last(b) then Shortest(Init(a), Init(b))
    else Then(Shortest(Init(a), Init(b)), Substitute(|b| - 1, Last(b)))
  }

  /** A script for all of `a` but its last unit leaves that unit at the end of the result. */
  lemma BeforeLast(s: Script, a: Text, r: Text)
    requires a != [] && Valid(s, Init(a)) && Result(s, Init(a)) == r
    ensures Valid(s, a) && Result(s, a) == r + [Last(a)]
  {
    BeforeTail(s, Init(a), [Last(a)]);
    assert Init(a) + [Last(a)] == a;
  }

  lemma {:induction false} ShortestWorks(a: Text, b: Text)
    ensures Valid(Shortest(a, b), a) && Result(Shortest(a, b), a) == b && Length(Shortest(a, b)) == Distance(a, b)
    decreases |a| + |b|
  {
    hide Valid, Result, Apply;
    if b == [] {
      if a == [] {
        NothingToDo(a);
      } else {
        ShortestWorks(Init(a), b);
        BeforeLast(Shortest(Init(a), b), a, b);
        DropLast(Shortest(Init(a), b), a, b, Last(a));
      }
    } else if a == [] {
      ShortestWorks(a, Init(b));
      AddLast(Shortest(a, Init(b)), a, b);
    } else if Distance(a, b) == Distance(Init(a), b) + 1 {
      ShortestWorks(Init(a), b);
      BeforeLast(Shortest(Init(a), b), a, b);
      DropLast(Shortest(Init(a), b), a, b, Last(a));
    } else if Distance(a, b) == Distance(a, Init(b)) + 1 {
      ShortestWorks(a, Init(b));
      AddLast(Shortest(a, Init(b)), a, b);
    } else {
      ShortestWorks(Init(a), Init(b));
      BeforeLast(Shortest(Init(a), Init(b)), a, Init(b));
      assert Init(b) + [Last(b)] == b;
      SetLast(Shortest(Init(a), Init(b)), a, b, Last(a));
    }
  }

  lemma NothingToDo(a: Text)
    ensures Valid(Nothing, a) && Result(Nothing, a) == a
  {
  }

  lemma DropLast(s: Script, a: Text, r: Text, last: CodeUnit)
    requires Valid(s, a) && Result(s, a) == r + [last]
    ensures Valid(Then(s, Delete(|r|)), a) && Result(Then(s, Delete(|r|)), a) == r
  {
  }

  lemma AddLast(s: Script, a: Text, b: Text)
    requires b != [] && Valid(s, a) && Result(s, a) == Init(b)
    ensures Valid(Then(s, Insert(|b| - 1, Last(b))), a) && Result(Then(s, Insert(|b| - 1, Last(b))), a) == b
  {
  }

  lemma SetLast(s: Script, a: Text, b: Text, last: CodeUnit)
    requires b != [] && Valid(s, a) && Result(s, a) == Init(b) + [last]
    ensures Valid(Then(s, Substitute(|b| - 1, Last(b))), a) && Result(Then(s, Substitute(|b| - 1, Last(b))), a) == b
  {
  }

  /** The recurrence gives the least number of insertions, deletions and substitutions that turn `a` into `b`. */
  lemma DistanceIsLeast(a: Text, b: Text)
    ensures forall s :: Valid(s, a) && Result(s, a) == b ==> Distance(a, b) <= Length(s)
    ensures exists s :: Valid(s, a) && Result(s, a) == b && Length(s) == Distance(a, b)
  {
    forall s | Valid(s, a) && Result(s, a) == b ensures Distance(a, b) <= Length(s) {
      NoScriptIsShorter(s, a);
    }
    ShortestWorks(a, b);
  }

  // ---------------------------------------------------------------------------------------------
  // The table

  function PrefixDistance(a: Text, b: Text, i: nat, j: nat): nat
    requires i <= |a| && j <= |b|
  {
    Distance(a[..i], b[..j])
  }

  lemma PrefixEdges(a: Text, b: Text, i: nat, j: nat)
    requires i <= |a| && j <= |b|
    ensures PrefixDistance(a, b, i, 0) == i && PrefixDistance(a, b, 0, j) == j
  {
    assert a[..0] == [] && b[..0] == [];
  }

  lemma PrefixRecurrence(a: Text, b: Text, i: nat, j: nat)
    requires 1 <= i <= |a| && 1 <= j <= |b|
    ensures PrefixDistance(a, b, i, j)
            == Min(Min(PrefixDistance(a, b, i - 1, j) + 1, PrefixDistance(a, b, i, j - 1) + 1),
                   PrefixDistance(a, b, i - 1, j - 1) + if a[i - 1] == b[j - 1] then 0 else 1)
  {
    assert Init(a[..i]) == a[..i - 1] && Init(b[..j]) == b[..j - 1];
    assert Last(a[..i]) == a[i - 1] && Last(b[..j]) == b[j - 1];
  }

  method ComputeDistance(a: Text, b: Text) returns (distance: nat)
    ensures distance == Distance(a, b)
  {
    var m, n := |a|, |b|;
    var dp := new nat[m + 1, n + 1]((i, j) => 0);
    hide Distance, PrefixDistance, Min;
    for i := 0 to m + 1
      invariant forall k :: 0 <= k < i ==> dp[k, 0] == PrefixDistance(a, b, k, 0)
    {
      PrefixEdges(a, b, i, 0);
      dp[i, 0] := i;
    }
    for j := 0 to n + 1
      invariant forall k :: 0 <= k <= m ==> dp[k, 0] == PrefixDistance(a, b, k, 0)
      invariant forall k :: 0 <= k < j ==> dp[0, k] == PrefixDistance(a, b, 0, k)
    {
      PrefixEdges(a, b, 0, j);
      dp[0, j] := j;
    }
    for i := 1 to m + 1
      invariant forall k :: 0 <= k <= m ==> dp[k, 0] == PrefixDistance(a, b, k, 0)
      invariant forall k, l :: 0 <= k < i && 0 <= l <= n ==> dp[k, l] == PrefixDistance(a, b, k, l)
    {
      for j := 1 to n + 1
        invariant forall k :: 0 <= k <= m ==> dp[k, 0] == PrefixDistance(a, b, k, 0)
        invariant forall k, l :: 0 <= k < i && 0 <= l <= n ==> dp[k, l] == PrefixDistance(a, b, k, l)
        invariant forall l :: 0 <= l < j ==> dp[i, l] == PrefixDistance(a, b, i, l)
      {
        PrefixRecurrence(a, b, i, j);
        var cost := if a[i - 1] == b[j - 1] then 0 else 1;
        dp[i, j] := Min(Min(dp[i - 1, j] + 1, dp[i, j - 1] + 1), dp[i - 1, j - 1] + cost);
      }
    }
    distance := dp[m, n];
    WholePrefix(a, b);
  }

  lemma WholePrefix(a: Text, b: Text)
    ensures PrefixDistance(a, b, |a|, |b|) == Distance(a, b)
  {
    assert a[..|a|] == a && b[..|b|] == b;
  }

  // ---------------------------------------------------------------------------------------------
  // The closest key

  function Apart(lower: Text -> Text, unknown: Text, key: Text): nat {
    Distance(lower(unknown), lower(key))
  }

  /** The first key of least distance among those within 3. */
  ghost predicate IsClosest(lower: Text -> Text, unknown: Text, known: seq<Text>, i: int) {
    && 0 <= i < |known| && Distance(lower(unknown), lower(known[i])) <= 3
    && (forall j :: 0 <= j < |known| ==> Apart(lower, unknown, known[i]) <= Apart(lower, unknown, known[j]))
    && (forall j :: 0 <= j < i ==> Apart(lower, unknown, known[i]) < Apart(lower, unknown, known[j]))
  }

  /** `known` lists the known keys in the order of the set; `lower` is the lower-case mapping. */
  method FindClosestKey(lower: Text -> Text, unknown: Text, known: seq<Text>) returns (best: Option<Text>)
    ensures best.Some? ==> exists i :: IsClosest(lower, unknown, known, i) && known[i] == best.value
    ensures best.None? <==> forall i :: 0 <= i < |known| ==> Distance(lower(unknown), lower(known[i])) > 3
  {
    best := None;
    var bestDist: Option<nat> := None;
    ghost var at := 0;
    hide Distance;
    for i := 0 to |known|
      invariant best.Some? <==> bestDist.Some?
      invariant best.None? ==> forall j :: 0 <= j < i ==> Apart(lower, unknown, known[j]) > 3
      invariant best.Some? ==>
                  at < i && known[at] == best.value && Apart(lower, unknown, known[at]) == bestDist.value <= 3
      invariant best.Some? ==>
                  forall j :: 0 <= j < i ==> Apart(lower, unknown, known[at]) <= Apart(lower, unknown, known[j])
      invariant best.Some? ==>
                  forall j :: 0 <= j < at ==> Apart(lower, unknown, known[at]) < Apart(lower, unknown, known[j])
    {
      var dist := ComputeDistance(lower(unknown), lower(known[i]));
      if (bestDist.None? || dist < bestDist.value) && dist <= MAX_DISTANCE {
        bestDist := Some(dist);
        best := Some(known[i]);
        at := i;
      }
    }
    assert forall i :: 0 <= i < |known| ==>
        Apart(lower, unknown, known[i]) == Distance(lower(unknown), lower(known[i]));
    if best.Some? {
      assert IsClosest(lower, unknown, known, at);
    }
  }
}
