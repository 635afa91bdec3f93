/** A string literal determines the string: escapes can be told apart and end where they end. */
module EscapeInjectivity {
  import opened JsonText
  import opened Numbers
  import opened Sequences

  lemma HexDigitsDetermineUnit(u: CodeUnit, w: CodeUnit)
    requires u / 4096 == w / 4096
    requires u / 256 % 16 == w / 256 % 16
    requires u / 16 % 16 == w / 16 % 16
    requires u % 16 == w % 16
    ensures u == w
  {
    DigitByDigit(u);
    DigitByDigit(w);
  }

  lemma EscapeUnitUnique(u: CodeUnit, w: CodeUnit, r: Text, t: Text)
    requires EscapeUnit(u) + r == EscapeUnit(w) + t
    ensures u == w && r == t
  {
    var a, b := EscapeUnit(u), EscapeUnit(w);
    var x := a + r;
    assert x[0] == a[0] == b[0];
    if a[0] == BACKSLASH {
      assert x[1] == a[1] == b[1];
      if a[1] == 117 {
        assert a == UnicodeEscape(u) && b == UnicodeEscape(w);
        assert HexDigit(u / 4096) == x[2] == HexDigit(w / 4096);
        assert HexDigit(u / 256 % 16) == x[3] == HexDigit(w / 256 % 16);
        assert HexDigit(u / 16 % 16) == x[4] == HexDigit(w / 16 % 16);
        assert HexDigit(u % 16) == x[5] == HexDigit(w % 16);
        HexDigitsDetermineUnit(u, w);
      }
    }
    PrefixUnique(a, r, t);
  }

  lemma EscapeHead(s: Text, rest: Text)
    ensures |EscapeOnto(s, rest)| > 0
    ensures EscapeOnto(s, rest)[0] == if s == [] then QUOTE else if StartsWithPair(s) then s[0] else EscapeUnit(s[0])[0]
  {
  }

  /** A quoted string is self-delimiting: what follows the closing quote does not matter. */
  lemma {:induction false} EscapeUnique(s: Text, t: Text, r: Text, q: Text)
    requires EscapeOnto(s, r) == EscapeOnto(t, q)
    ensures s == t && r == q
    decreases |s|
  {
    EscapeHead(s, r);
    EscapeHead(t, q);
    if s == [] {
      ConsUnique(QUOTE, QUOTE, r, q);
    } else if StartsWithPair(s) {
      ConsUnique(s[0], t[0], [s[1]] + EscapeOnto(s[2..], r), [t[1]] + EscapeOnto(t[2..], q));
      ConsUnique(s[1], t[1], EscapeOnto(s[2..], r), EscapeOnto(t[2..], q));
      EscapeUnique(s[2..], t[2..], r, q);
      assert s == [s[0], s[1]] + s[2..] && t == [t[0], t[1]] + t[2..];
    } else {
      EscapeUnitUnique(s[0], t[0], EscapeOnto(s[1..], r), EscapeOnto(t[1..], q));
      EscapeUnique(s[1..], t[1..], r, q);
      assert s == [s[0]] + s[1..] && t == [t[0]] + t[1..];
    }
  }

  lemma QuoteUnique(s: Text, t: Text, r: Text, q: Text)
    requires QuoteOnto(s, r) == QuoteOnto(t, q)
    ensures s == t && r == q
  {
    ConsUnique(QUOTE, QUOTE, EscapeOnto(s, r), EscapeOnto(t, q));
    EscapeUnique(s, t, r, q);
  }
}
