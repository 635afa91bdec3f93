/**
 JSON values as the gateway sees them, and the text that `JSON.stringify` prints for them.

 A text is a sequence of UTF-16 code units, as a JavaScript string is. String literals are
 printed by the rules of section 25.5.2 of ECMA-262 (a superset of section 7 of RFC 8259): short
 escapes, `\u` escapes for the other control units and for unpaired surrogates, and surrogate
 pairs as they are. A number is represented by the text its conversion to a string gives, which is one
 text for each finite number, 0 and -0 being one number here.
 */
module JsonText {
  type CodeUnit = u: int | 0 <= u < 0x1_0000

  type Text = seq<CodeUnit>

  const BACKSPACE: CodeUnit := 8
  const TAB: CodeUnit := 9
  const LINE_FEED: CodeUnit := 10
  const FORM_FEED: CodeUnit := 12
  const RETURN: CodeUnit := 13
  const QUOTE: CodeUnit := 34
  const COMMA: CodeUnit := 44
  const COLON: CodeUnit := 58
  const OPEN_BRACKET: CodeUnit := 91
  const BACKSLASH: CodeUnit := 92
  const CLOSE_BRACKET: CodeUnit := 93
  const OPEN_BRACE: CodeUnit := 123
  const CLOSE_BRACE: CodeUnit := 125

  const NULL_TEXT: Text := [110, 117, 108, 108]
  const TRUE_TEXT: Text := [116, 114, 117, 101]
  const FALSE_TEXT: Text := [102, 97, 108, 115, 101]

  /** The units a printed number is made of: digits, `+`, `-`, `.` and `e`. */
  predicate IsNumberUnit(u: CodeUnit) {
    48 <= u <= 57 || u == 43 || u == 45 || u == 46 || u == 101
  }

  predicate IsNumberText(t: Text) {
    |t| > 0 && forall i :: 0 <= i < |t| ==> IsNumberUnit(t[i])
  }

  type NumberText = t: Text | IsNumberText(t) witness [48]

  datatype Json =
    | Null
    | Boolean(b: bool)
    | Number(repr: NumberText)
    | String(s: Text)
    | Array(items: seq<Json>)
    | Object(members: seq<Member>)

  /** One own property. The members of an object are in the order the engine enumerates them. */
  datatype Member = Member(key: Text, value: Json)

  // ---------------------------------------------------------------------------------------------
  // String literals

  predicate IsLeadingSurrogate(u: CodeUnit) {
    0xD800 <= u <= 0xDBFF
  }

  predicate IsTrailingSurrogate(u: CodeUnit) {
    0xDC00 <= u <= 0xDFFF
  }

  predicate StartsWithPair(s: Text) {
    |s| >= 2 && IsLeadingSurrogate(s[0]) && IsTrailingSurrogate(s[1])
  }

  function HexDigit(d: int): CodeUnit
    requires 0 <= d < 16
  {
    if d < 10 then 48 + d else 87 + d
  }

  function UnicodeEscape(u: CodeUnit): Text {
    [BACKSLASH, 117, HexDigit(u / 4096), HexDigit(u / 256 % 16), HexDigit(u / 16 % 16), HexDigit(u % 16)]
  }

  /** The printed form of one unit that is not part of a surrogate pair. */
  function EscapeUnit(u: CodeUnit): Text {
    if u == BACKSPACE then [BACKSLASH, 98]
    else if u == TAB then [BACKSLASH, 116]
    else if u == LINE_FEED then [BACKSLASH, 110]
    else if u == FORM_FEED then [BACKSLASH, 102]
    else if u == RETURN then [BACKSLASH, 114]
    else if u == QUOTE then [BACKSLASH, QUOTE]
    else if u == BACKSLASH then [BACKSLASH, BACKSLASH]
    else if u < 0x20 || IsLeadingSurrogate(u) || IsTrailingSurrogate(u) then UnicodeEscape(u)
    else [u]
  }

  /** The printed form of `s` up to and including the closing quote, followed by `rest`. */
  function EscapeOnto(s: Text, rest: Text): Text {
    if s == [] then [QUOTE] + rest
    else if StartsWithPair(s) then [s[0]] + ([s[1]] + EscapeOnto(s[2..], rest))
    else EscapeUnit(s[0]) + EscapeOnto(s[1..], rest)
  }

  function QuoteOnto(s: Text, rest: Text): Text {
    [QUOTE] + EscapeOnto(s, rest)
  }

  // ---------------------------------------------------------------------------------------------
  // Values

  /** The printed form of `v`, followed by `rest`. */
  function PrintOnto(v: Json, rest: Text): Text
    decreases v
  {
    match v
    case Null => NULL_TEXT + rest
    case Boolean(b) => (if b then TRUE_TEXT else FALSE_TEXT) + rest
    case Number(repr) => repr + rest
    case String(s) => QuoteOnto(s, rest)
    case Array(items) =>
      [OPEN_BRACKET] + if items == [] then [CLOSE_BRACKET] + rest else PrintOnto(items[0], ItemsOnto(items[1..], rest))
    case Object(members) =>
      [OPEN_BRACE] + if members == [] then [CLOSE_BRACE] + rest
                     else MemberOnto(members[0], MembersOnto(members[1..], rest))
  }

  /** The items after the first one, each behind its comma, and the closing bracket. */
  function ItemsOnto(items: seq<Json>, rest: Text): Text
    decreases items
  {
    if items == [] then [CLOSE_BRACKET] + rest
    else [COMMA] + PrintOnto(items[0], ItemsOnto(items[1..], rest))
  }

  function MemberOnto(m: Member, rest: Text): Text
    decreases m
  {
    QuoteOnto(m.key, [COLON] + PrintOnto(m.value, rest))
  }

  function MembersOnto(members: seq<Member>, rest: Text): Text
    decreases members
  {
    if members == [] then [CLOSE_BRACE] + rest
    else [COMMA] + MemberOnto(members[0], MembersOnto(members[1..], rest))
  }

  function Print(v: Json): Text {
    PrintOnto(v, [])
  }

  // ---------------------------------------------------------------------------------------------
  // No printed text holds a line feed

  lemma {:induction false} NoLineFeedInString(s: Text, rest: Text)
    requires LINE_FEED !in rest
    ensures LINE_FEED !in EscapeOnto(s, rest)
    decreases |s|
  {
    if s != [] {
      if StartsWithPair(s) {
        NoLineFeedInString(s[2..], rest);
      } else {
        NoLineFeedInString(s[1..], rest);
        assert LINE_FEED !in EscapeUnit(s[0]);
      }
    }
  }

  lemma {:induction false} NoLineFeedInValue(v: Json, rest: Text)
    requires LINE_FEED !in rest
    ensures LINE_FEED !in PrintOnto(v, rest)
    decreases v
  {
    match v
    case String(s) => NoLineFeedInString(s, rest);
    case Array(items) =>
      if items != [] {
        NoLineFeedInItems(items[1..], rest);
        NoLineFeedInValue(items[0], ItemsOnto(items[1..], rest));
      }
    case Object(members) =>
      if members != [] {
        NoLineFeedInMembers(members[1..], rest);
        NoLineFeedInMember(members[0], MembersOnto(members[1..], rest));
      }
    case _ =>
  }

  lemma {:induction false} NoLineFeedInItems(items: seq<Json>, rest: Text)
    requires LINE_FEED !in rest
    ensures LINE_FEED !in ItemsOnto(items, rest)
    decreases items
  {
    if items != [] {
      NoLineFeedInItems(items[1..], rest);
      NoLineFeedInValue(items[0], ItemsOnto(items[1..], rest));
    }
  }

  lemma {:induction false} NoLineFeedInMember(m: Member, rest: Text)
    requires LINE_FEED !in rest
    ensures LINE_FEED !in MemberOnto(m, rest)
    decreases m
  {
    NoLineFeedInValue(m.value, rest);
    NoLineFeedInString(m.key, [COLON] + PrintOnto(m.value, rest));
  }

  lemma {:induction false} NoLineFeedInMembers(members: seq<Member>, rest: Text)
    requires LINE_FEED !in rest
    ensures LINE_FEED !in MembersOnto(members, rest)
    decreases members
  {
    if members != [] {
      NoLineFeedInMembers(members[1..], rest);
      NoLineFeedInMember(members[0], MembersOnto(members[1..], rest));
    }
  }
}
