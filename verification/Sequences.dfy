/** Facts about sequences, their elements and the sizes of sets that several modules rely on. */
module Sequences {

  lemma ConsUnique<T>(x: T, y: T, a: seq<T>, b: seq<T>)
    requires [x] + a == [y] + b
    ensures x == y && a == b
  {
    assert x == ([x] + a)[0] == ([y] + b)[0] == y;
    assert a == ([x] + a)[1..] == ([y] + b)[1..] == b;
  }

  lemma PrefixUnique<T>(a: seq<T>, r: seq<T>, q: seq<T>)
    requires a + r == a + q
    ensures r == q
  {
    assert r == (a + r)[|a|..] == (a + q)[|a|..] == q;
  }

  /** A separator that the first parts do not contain splits in one way only. */
  lemma FirstSplitUnique<T>(a: seq<T>, b: seq<T>, sep: T, r: seq<T>, q: seq<T>)
    requires sep !in a && sep !in b
    requires a + [sep] + r == b + [sep] + q
    ensures a == b && r == q
  {
    var x := a + [sep] + r;
    assert x[|a|] == sep && x[|b|] == sep;
    assert forall i :: 0 <= i < |a| ==> x[i] == a[i];
    assert forall i :: 0 <= i < |b| ==> x[i] == b[i];
    assert |a| == |b|;
    assert a == x[..|a|] == b;
    assert r == x[|a| + 1..] == q;
  }

  /** A separator that the last parts do not contain splits in one way only. */
  lemma LastSplitUnique<T>(a: seq<T>, b: seq<T>, sep: T, r: seq<T>, q: seq<T>)
    requires sep !in r && sep !in q
    requires a + [sep] + r == b + [sep] + q
    ensures a == b && r == q
  {
    var x := a + [sep] + r;
    assert x[|a|] == sep && x[|b|] == sep;
    assert forall i :: |a| < i < |x| ==> x[i] == r[i - |a| - 1];
    assert forall i :: |b| < i < |x| ==> x[i] == q[i - |b| - 1];
    assert |a| == |b|;
    assert a == x[..|a|] == b;
    assert r == x[|a| + 1..] == q;
  }

  lemma AppendAgain<T>(a: seq<T>, b: seq<T>, c: seq<T>)
    ensures a + (b + c) == a + b + c
  {
  }

  lemma AppendNothing<T>(a: seq<T>)
    ensures a + [] == a
  {
  }

  predicate Distinct<T(==)>(s: seq<T>) {
    forall i, j :: 0 <= i < j < |s| ==> s[i] != s[j]
  }

  lemma DistinctRemoveAt<T>(s: seq<T>, i: nat)
    requires i < |s| && Distinct(s)
    ensures Distinct(s[..i] + s[i + 1..])
    ensures forall x :: x in s[..i] + s[i + 1..] <==> x in s && x != s[i]
  {
    var r := s[..i] + s[i + 1..];
    assert s == s[..i] + [s[i]] + s[i + 1..];
    assert forall j :: 0 <= j < |r| ==> r[j] == if j < i then s[j] else s[j + 1];
  }

  lemma DistinctDrop<T>(s: seq<T>, n: nat)
    requires n <= |s| && Distinct(s)
    ensures Distinct(s[n..])
    ensures forall x :: x in s[n..] <==> x in s && x !in s[..n]
  {
    assert s == s[..n] + s[n..];
    forall x | x in s[n..] ensures x !in s[..n] {
      var i :| 0 <= i < |s[n..]| && s[n..][i] == x;
      assert s[n + i] == x;
    }
  }

  lemma DistinctSnoc<T>(s: seq<T>, x: T)
    requires Distinct(s) && x !in s
    ensures Distinct(s + [x])
  {
  }

  /** The sequence without the first occurrence of an element. */
  function Without<T(==)>(s: seq<T>, x: T): seq<T> {
    if s == [] then []
    else if s[0] == x then s[1..]
    else [s[0]] + Without(s[1..], x)
  }

  lemma {:induction false} WithoutMembers<T(!new)>(s: seq<T>, x: T)
    requires Distinct(s)
    ensures Distinct(Without(s, x))
    ensures forall y :: y in Without(s, x) <==> y in s && y != x
    ensures |Without(s, x)| == if x in s then |s| - 1 else |s|
  {
    if s != [] {
      DistinctDrop(s, 1);
      assert s == s[..1] + s[1..];
      if s[0] != x {
        WithoutMembers(s[1..], x);
        DistinctCons(s[0], Without(s[1..], x));
      }
    }
  }

  lemma DistinctCons<T>(x: T, s: seq<T>)
    requires Distinct(s) && x !in s
    ensures Distinct([x] + s)
  {
  }

  function Repeat<T>(x: T, n: nat): (s: seq<T>)
    ensures |s| == n
  {
    if n == 0 then [] else [x] + Repeat(x, n - 1)
  }

  lemma {:induction false} RepeatAgain<T>(x: T, m: nat, n: nat)
    ensures Repeat(x, m) + Repeat(x, n) == Repeat(x, m + n)
  {
    if m == 0 {
      assert [] + Repeat(x, n) == Repeat(x, n);
    } else {
      RepeatAgain(x, m - 1, n);
      assert Repeat(x, m) + Repeat(x, n) == [x] + (Repeat(x, m - 1) + Repeat(x, n));
    }
  }

  lemma RepeatOnceMore<T>(x: T, n: nat)
    ensures Repeat(x, n + 1) == Repeat(x, n) + [x]
  {
    RepeatAgain(x, n, 1);
    assert Repeat(x, 1) == [x] + Repeat(x, 0);
  }

  lemma {:induction false} SubsetSize<T>(a: set<T>, b: set<T>)
    requires a <= b
    ensures |a| <= |b|
  {
    if a != {} {
      var x :| x in a;
      SubsetSize(a - {x}, b - {x});
    }
  }

  lemma {:induction false} DistinctFits<T>(s: seq<T>, elements: set<T>)
    requires Distinct(s) && forall x :: x in s ==> x in elements
    ensures |s| <= |elements|
  {
    if s != [] {
      var n := |s| - 1;
      assert s[n] in elements;
      assert forall i :: 0 <= i < n ==> s[..n][i] == s[i];
      DistinctFits(s[..n], elements - {s[n]});
    }
  }

  /** The elements of `part` occur in `whole`, in the same order and as often. */
  predicate IsSubsequence<T(==)>(part: seq<T>, whole: seq<T>) {
    || part == []
    || (whole != []
        && ((part[0] == whole[0] && IsSubsequence(part[1..], whole[1..])) || IsSubsequence(part, whole[1..])))
  }

  lemma {:induction false} SubsequenceOfSelf<T>(s: seq<T>)
    ensures IsSubsequence(s, s)
  {
    if s != [] { SubsequenceOfSelf(s[1..]); }
  }

  lemma {:induction false} WithoutSubsequence<T>(s: seq<T>, x: T)
    ensures IsSubsequence(Without(s, x), s)
  {
    if s != [] {
      if s[0] == x {
        SubsequenceOfSelf(s[1..]);
      } else {
        WithoutSubsequence(s[1..], x);
        assert Without(s, x)[1..] == Without(s[1..], x);
      }
    }
  }

  lemma {:induction false} SubsequenceTwice<T>(a: seq<T>, b: seq<T>, c: seq<T>)
    requires IsSubsequence(a, b) && IsSubsequence(b, c)
    ensures IsSubsequence(a, c)
    decreases |b| + |c|
  {
    if a != [] {
      if IsSubsequence(b, c[1..]) {
        SubsequenceTwice(a, b, c[1..]);
      } else if IsSubsequence(a, b[1..]) {
        SubsequenceTwice(a, b[1..], c[1..]);
      } else {
        SubsequenceTwice(a[1..], b[1..], c[1..]);
      }
    }
  }

  lemma {:induction false} SuffixSubsequence<T>(s: seq<T>, n: nat)
    requires n <= |s|
    ensures IsSubsequence(s[n..], s)
  {
    if n == 0 {
      assert s[0..] == s;
      SubsequenceOfSelf(s);
    } else {
      assert s[1..][n - 1..] == s[n..];
      SuffixSubsequence(s[1..], n - 1);
    }
  }

  lemma {:induction false} SubsequenceMembers<T(!new)>(part: seq<T>, whole: seq<T>)
    requires IsSubsequence(part, whole)
    ensures forall x :: x in part ==> x in whole
    decreases |whole|
  {
    if part != [] {
      assert whole == [whole[0]] + whole[1..];
      if IsSubsequence(part, whole[1..]) {
        SubsequenceMembers(part, whole[1..]);
      } else {
        assert part == [part[0]] + part[1..];
        SubsequenceMembers(part[1..], whole[1..]);
      }
    }
  }
}
