/**
 The order of the keys in a canonical text (src/utils/deep-sort.ts:32-37), said without the code's own comparisons:
 array indices by their value, and behind them the other keys by their code units.
 */
module KeyOrder {
  import opened Sequences
  import opened JsonText
  import opened CanonicalJson

  /** The decimal text of a number. */
  function DecimalText(n: nat): (t: Text)
    ensures |t| > 0
  {
    if n < 10 then [48 + n] else DecimalText(n / 10) + [48 + n % 10]
  }

  /** The key is an array index (section 6.1.7 of ECMA-262) with this value. */
  predicate IsIndexOf(key: Text, n: nat) {
    n < 4_294_967_295 && key == DecimalText(n)
  }

  ghost predicate IsIndex(key: Text) {
    exists n: nat :: IsIndexOf(key, n)
  }

  /** The texts are equal in their first `k` units and then the unit of `a` is the lesser one. */
  predicate DiffersAt(a: Text, b: Text, k: nat) {
    k < |a| && k < |b| && a[..k] == b[..k] && a[k] < b[k]
  }

  ghost predicate UnitsLess(a: Text, b: Text) {
    (|a| < |b| && a == b[..|a|]) || exists k: nat :: DiffersAt(a, b, k)
  }

  predicate ValuesLess(a: Text, b: Text, m: nat, n: nat) {
    IsIndexOf(a, m) && IsIndexOf(b, n) && m < n
  }

  ghost predicate ComesFirst(a: Text, b: Text) {
    if IsIndex(a) then !IsIndex(b) || exists m: nat, n: nat :: ValuesLess(a, b, m, n)
    else !IsIndex(b) && UnitsLess(a, b)
  }

  /** At every depth the keys come in this order. */
  ghost predicate InOrder(v: Json)
    decreases v
  {
    match v
    case Array(items) => forall i :: 0 <= i < |items| ==> InOrder(items[i])
    case Object(members) =>
      && (forall i, j :: 0 <= i < j < |members| ==> ComesFirst(members[i].key, members[j].key))
      && (forall i :: 0 <= i < |members| ==> InOrder(members[i].value))
    case _ => true
  }

  // ---------------------------------------------------------------------------------------------
  // Decimal texts

  lemma {:induction false} DecimalDigits(n: nat)
    ensures forall i :: 0 <= i < |DecimalText(n)| ==> IsDigit(DecimalText(n)[i])
    ensures n > 0 ==> DecimalText(n)[0] != 48
    ensures |DecimalText(n)| == 1 <==> n < 10
  {
    if n >= 10 {
      DecimalDigits(n / 10);
      assert DecimalText(n)[0] == DecimalText(n / 10)[0];
    }
  }

  /** Comparing texts of one length is comparing all but the last unit, and then the last. */
  lemma {:induction false} LexLessSnoc(a: Text, b: Text, x: CodeUnit, y: CodeUnit)
    requires |a| == |b|
    ensures LexLess(a + [x], b + [y]) <==> LexLess(a, b) || (a == b && x < y)
  {
    if a != [] {
      LexLessSnoc(a[1..], b[1..], x, y);
      assert (a + [x])[1..] == a[1..] + [x] && (b + [y])[1..] == b[1..] + [y];
      assert a == [a[0]] + a[1..] && b == [b[0]] + b[1..];
    }
  }

  /** Shorter decimal texts are lesser numbers, and those of one length compare like their texts. */
  lemma {:induction false} DecimalOrder(m: nat, n: nat)
    ensures IndexLess(DecimalText(m), DecimalText(n)) <==> m < n
    ensures DecimalText(m) == DecimalText(n) <==> m == n
    ensures |DecimalText(m)| < |DecimalText(n)| ==> m < n
    ensures |DecimalText(m)| > |DecimalText(n)| ==> m > n
    decreases m + n
  {
    DecimalDigits(m);
    DecimalDigits(n);
    if m >= 10 && n >= 10 {
      var a, b := DecimalText(m / 10), DecimalText(n / 10);
      DecimalOrder(m / 10, n / 10);
      assert DecimalText(m)[..|a|] == a && DecimalText(n)[..|b|] == b;
      assert DecimalText(m)[|a|] == 48 + m % 10 && DecimalText(n)[|b|] == 48 + n % 10;
      if |a| == |b| { LexLessSnoc(a, b, 48 + m % 10, 48 + n % 10); }
    } else if m < 10 && n < 10 {
      LexLessSnoc([], [], 48 + m, 48 + n);
      assert [] + [48 + m] == DecimalText(m) && [] + [48 + n] == DecimalText(n);
    }
  }

  lemma LastIndex()
    ensures LAST_INDEX == DecimalText(4_294_967_294)
  {
    assert DecimalText(42) == [52, 50];
    assert DecimalText(4294) == [52, 50, 57, 52];
    assert DecimalText(429496) == [52, 50, 57, 52, 57, 54];
    assert DecimalText(42949672) == [52, 50, 57, 52, 57, 54, 55, 50];
  }

  /** Digits without a leading zero are the decimal text of some number. */
  lemma {:induction false} DigitsAreDecimal(key: Text) returns (n: nat)
    requires |key| > 0 && (forall i :: 0 <= i < |key| ==> IsDigit(key[i])) && (|key| > 1 ==> key[0] != 48)
    ensures key == DecimalText(n)
  {
    var k := |key| - 1;
    if k == 0 {
      n := key[0] - 48;
    } else {
      var m := DigitsAreDecimal(key[..k]);
      n := 10 * m + (key[k] - 48);
      assert key[..k][0] == DecimalText(m)[0] != 48;
      assert DecimalText(0)[0] == 48;
      assert m > 0;
      assert n / 10 == m && n % 10 == key[k] - 48;
      assert key == key[..k] + [key[k]];
    }
  }

  /** The code's test finds exactly the decimal texts of 0 to 2^32 - 2. */
  lemma IndexExactly(key: Text)
    ensures IsArrayIndex(key) <==> IsIndex(key)
  {
    LastIndex();
    if IsArrayIndex(key) {
      var n := DigitsAreDecimal(key);
      DecimalOrder(4_294_967_294, n);
      assert IsIndexOf(key, n);
    }
    if n: nat :| IsIndexOf(key, n) {
      DecimalDigits(n);
      DecimalOrder(4_294_967_294, n);
    }
  }

  // ---------------------------------------------------------------------------------------------
  // The order

  lemma {:induction false} LexLessExactly(a: Text, b: Text)
    ensures LexLess(a, b) <==> UnitsLess(a, b)
    decreases |b|
  {
    if a != [] && b != [] {
      LexLessExactly(a[1..], b[1..]);
      assert a == [a[0]] + a[1..] && b == [b[0]] + b[1..];
      if a[0] < b[0] { assert DiffersAt(a, b, 0); }
      if a[0] == b[0] { OneUnitMore(a, b); }
      if k: nat :| DiffersAt(a, b, k) {
        if k > 0 { assert a[..k][0] == b[..k][0]; }
      }
      if |a| < |b| && a == b[..|a|] { assert a[0] == b[0]; }
    }
  }

  lemma OneUnitMore(a: Text, b: Text)
    requires a != [] && b != [] && a[0] == b[0]
    ensures UnitsLess(a, b) <==> UnitsLess(a[1..], b[1..])
  {
    var x, y := a[1..], b[1..];
    assert a == [a[0]] + x && b == [b[0]] + y;
    if |a| < |b| && a == b[..|a|] { assert x == y[..|x|]; }
    if |x| < |y| && x == y[..|x|] { assert a == b[..|a|]; }
    if k: nat :| DiffersAt(a, b, k) {
      assert k > 0;
      assert x[..k - 1] == a[..k][1..] && y[..k - 1] == b[..k][1..];
      assert DiffersAt(x, y, k - 1);
    }
    if k: nat :| DiffersAt(x, y, k) {
      assert a[..k + 1] == [a[0]] + x[..k] && b[..k + 1] == [b[0]] + y[..k];
      assert DiffersAt(a, b, k + 1);
    }
  }

  lemma BeforeExactly(a: Text, b: Text)
    ensures Before(a, b) <==> ComesFirst(a, b)
  {
    IndexExactly(a);
    IndexExactly(b);
    LexLessExactly(a, b);
    hide IsArrayIndex, LexLess, UnitsLess, IndexLess;
    if IsIndex(a) && IsIndex(b) {
      var m: nat, n: nat :| IsIndexOf(a, m) && IsIndexOf(b, n);
      DecimalOrder(m, n);
      assert m < n ==> ValuesLess(a, b, m, n);
      forall p: nat, q: nat | ValuesLess(a, b, p, q) ensures m < n {
        DecimalOrder(m, p);
        DecimalOrder(n, q);
      }
    }
  }

  /** The keys of a sorted value come in this order at every depth. */
  lemma {:induction false} SortedInOrder(v: Json)
    requires WellFormed(v)
    ensures InOrder(DeepSort(v))
    decreases v
  {
    hide Before, ComesFirst;
    match v
    case Array(items) =>
      forall i | 0 <= i < |items| ensures InOrder(DeepSort(items[i])) {
        SortedInOrder(items[i]);
      }
    case Object(members) => {
      SortedObject(members);
      var r := DeepSort(v).members;
      forall i, j | 0 <= i < j < |r| ensures ComesFirst(r[i].key, r[j].key) {
        BeforeExactly(r[i].key, r[j].key);
      }
      forall i | 0 <= i < |r| ensures InOrder(r[i].value) {
        assert r[i] in r;
        var j :| 0 <= j < |members| && r[i] == Member(members[j].key, DeepSort(members[j].value));
        SortedInOrder(members[j].value);
      }
    }
    case _ =>
  }
}
