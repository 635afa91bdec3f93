/** A printed text determines the JSON value, whatever follows it. */
module PrintInjectivity {
  import opened EscapeInjectivity
  import opened JsonText
  import opened Sequences

  /** A text that may follow a printed value: it does not continue a number. */
  predicate Ends(t: Text) {
    |t| > 0 ==> !IsNumberUnit(t[0])
  }

  lemma FirstUnit(v: Json, rest: Text)
    ensures |PrintOnto(v, rest)| > 0
    ensures var u := PrintOnto(v, rest)[0];
            match v
            case Null => u == 110
            case Boolean(b) => u == if b then 116 else 102
            case Number(_) => IsNumberUnit(u)
            case String(_) => u == QUOTE
            case Array(_) => u == OPEN_BRACKET
            case Object(_) => u == OPEN_BRACE
  {
  }

  /** The number of leading units that may belong to a number. */
  function NumberRun(t: Text): nat {
    if t != [] && IsNumberUnit(t[0]) then 1 + NumberRun(t[1..]) else 0
  }

  lemma {:induction false} NumberRunIsLength(a: Text, r: Text)
    requires forall i :: 0 <= i < |a| ==> IsNumberUnit(a[i])
    requires Ends(r)
    ensures NumberRun(a + r) == |a|
  {
    if a == [] {
      assert a + r == r;
    } else {
      assert (a + r)[1..] == a[1..] + r;
      NumberRunIsLength(a[1..], r);
    }
  }

  lemma NumberUnique(a: NumberText, b: NumberText, r: Text, q: Text)
    requires a + r == b + q && Ends(r) && Ends(q)
    ensures a == b && r == q
  {
    NumberRunIsLength(a, r);
    NumberRunIsLength(b, q);
    assert a == (a + r)[..|a|] == b;
    PrefixUnique(a, r, q);
  }

  /** Printing is injective, and a printed value ends where it can be seen to end. */
  lemma {:induction false} PrintUnique(v: Json, w: Json, r: Text, q: Text)
    requires PrintOnto(v, r) == PrintOnto(w, q) && Ends(r) && Ends(q)
    ensures v == w && r == q
    decreases v
  {
    FirstUnit(v, r);
    FirstUnit(w, q);
    match v
    case Null =>
      PrefixUnique(NULL_TEXT, r, q);
    case Boolean(b) =>
      PrefixUnique(if b then TRUE_TEXT else FALSE_TEXT, r, q);
    case Number(repr) =>
      NumberUnique(repr, w.repr, r, q);
    case String(s) =>
      QuoteUnique(s, w.s, r, q);
    case Array(items) =>
      ArrayUnique(items, w.items, r, q);
    case Object(members) =>
      ObjectUnique(members, w.members, r, q);
  }

  lemma {:induction false} ArrayUnique(xs: seq<Json>, ys: seq<Json>, r: Text, q: Text)
    requires PrintOnto(Array(xs), r) == PrintOnto(Array(ys), q)
    ensures xs == ys && r == q
    decreases xs, 1
  {
    var restX := if xs == [] then [CLOSE_BRACKET] + r else PrintOnto(xs[0], ItemsOnto(xs[1..], r));
    var restY := if ys == [] then [CLOSE_BRACKET] + q else PrintOnto(ys[0], ItemsOnto(ys[1..], q));
    ConsUnique(OPEN_BRACKET, OPEN_BRACKET, restX, restY);
    if xs != [] { FirstUnit(xs[0], ItemsOnto(xs[1..], r)); }
    if ys != [] { FirstUnit(ys[0], ItemsOnto(ys[1..], q)); }
    if xs == [] {
      ConsUnique(CLOSE_BRACKET, CLOSE_BRACKET, r, q);
    } else {
      PrintUnique(xs[0], ys[0], ItemsOnto(xs[1..], r), ItemsOnto(ys[1..], q));
      ItemsUnique(xs[1..], ys[1..], r, q);
      assert xs == [xs[0]] + xs[1..] && ys == [ys[0]] + ys[1..];
    }
  }

  lemma {:induction false} ItemsUnique(xs: seq<Json>, ys: seq<Json>, r: Text, q: Text)
    requires ItemsOnto(xs, r) == ItemsOnto(ys, q)
    ensures xs == ys && r == q
    decreases xs, 0
  {
    assert ItemsOnto(xs, r)[0] == if xs == [] then CLOSE_BRACKET else COMMA;
    assert ItemsOnto(ys, q)[0] == if ys == [] then CLOSE_BRACKET else COMMA;
    if xs == [] {
      ConsUnique(CLOSE_BRACKET, CLOSE_BRACKET, r, q);
    } else {
      ConsUnique(COMMA, COMMA, PrintOnto(xs[0], ItemsOnto(xs[1..], r)), PrintOnto(ys[0], ItemsOnto(ys[1..], q)));
      PrintUnique(xs[0], ys[0], ItemsOnto(xs[1..], r), ItemsOnto(ys[1..], q));
      ItemsUnique(xs[1..], ys[1..], r, q);
      assert xs == [xs[0]] + xs[1..] && ys == [ys[0]] + ys[1..];
    }
  }

  lemma {:induction false} MemberUnique(a: Member, b: Member, r: Text, q: Text)
    requires MemberOnto(a, r) == MemberOnto(b, q) && Ends(r) && Ends(q)
    ensures a == b && r == q
    decreases a
  {
    QuoteUnique(a.key, b.key, [COLON] + PrintOnto(a.value, r), [COLON] + PrintOnto(b.value, q));
    ConsUnique(COLON, COLON, PrintOnto(a.value, r), PrintOnto(b.value, q));
    PrintUnique(a.value, b.value, r, q);
  }

  lemma {:induction false} ObjectUnique(xs: seq<Member>, ys: seq<Member>, r: Text, q: Text)
    requires PrintOnto(Object(xs), r) == PrintOnto(Object(ys), q)
    ensures xs == ys && r == q
    decreases xs, 1
  {
    var restX := if xs == [] then [CLOSE_BRACE] + r else MemberOnto(xs[0], MembersOnto(xs[1..], r));
    var restY := if ys == [] then [CLOSE_BRACE] + q else MemberOnto(ys[0], MembersOnto(ys[1..], q));
    ConsUnique(OPEN_BRACE, OPEN_BRACE, restX, restY);
    assert restX[0] == if xs == [] then CLOSE_BRACE else QUOTE;
    assert restY[0] == if ys == [] then CLOSE_BRACE else QUOTE;
    if xs == [] {
      ConsUnique(CLOSE_BRACE, CLOSE_BRACE, r, q);
    } else {
      MemberUnique(xs[0], ys[0], MembersOnto(xs[1..], r), MembersOnto(ys[1..], q));
      MembersUnique(xs[1..], ys[1..], r, q);
      assert xs == [xs[0]] + xs[1..] && ys == [ys[0]] + ys[1..];
    }
  }

  lemma {:induction false} MembersUnique(xs: seq<Member>, ys: seq<Member>, r: Text, q: Text)
    requires MembersOnto(xs, r) == MembersOnto(ys, q)
    ensures xs == ys && r == q
    decreases xs, 0
  {
    assert MembersOnto(xs, r)[0] == if xs == [] then CLOSE_BRACE else COMMA;
    assert MembersOnto(ys, q)[0] == if ys == [] then CLOSE_BRACE else COMMA;
    if xs == [] {
      ConsUnique(CLOSE_BRACE, CLOSE_BRACE, r, q);
    } else {
      ConsUnique(COMMA, COMMA, MemberOnto(xs[0], MembersOnto(xs[1..], r)), MemberOnto(ys[0], MembersOnto(ys[1..], q)));
      MemberUnique(xs[0], ys[0], MembersOnto(xs[1..], r), MembersOnto(ys[1..], q));
      MembersUnique(xs[1..], ys[1..], r, q);
      assert xs == [xs[0]] + xs[1..] && ys == [ys[0]] + ys[1..];
    }
  }

  /** Two values print the same text exactly when they are the same value. */
  lemma PrintInjective(v: Json, w: Json)
    ensures Print(v) == Print(w) <==> v == w
  {
    if Print(v) == Print(w) {
      PrintUnique(v, w, [], []);
    }
  }
}
