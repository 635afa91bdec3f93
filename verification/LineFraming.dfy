/**
 Line framing of a child's standard output (src/proxy/stdio-mcp-client.ts:284-287, 401-420): decoded text
 arrives in chunks cut anywhere, and every complete line is handed to the JSON parser.
 */
module LineFraming {
  import opened Wrappers
  import opened JsonText
  import opened Sequences

  /** White space and line terminators, as `trim` strips them (section 22.1.3.32 of ECMA-262). */
  predicate IsSpace(u: CodeUnit) {
    || 9 <= u <= 13 || u == 32 || u == 0xA0 || u == 0x1680 || 0x2000 <= u <= 0x200A
    || u == 0x2028 || u == 0x2029 || u == 0x202F || u == 0x205F || u == 0x3000 || u == 0xFEFF
  }

  function TrimStart(t: Text): Text {
    if t != [] && IsSpace(t[0]) then TrimStart(t[1..]) else t
  }

  function TrimEnd(t: Text): Text {
    if t != [] && IsSpace(t[|t| - 1]) then TrimEnd(t[..|t| - 1]) else t
  }

  function Trim(t: Text): Text {
    TrimEnd(TrimStart(t))
  }

  function IndexOfLineFeed(t: Text): (n: int)
    ensures n == -1 ==> LINE_FEED !in t
    ensures n != -1 ==> 0 <= n < |t| && t[n] == LINE_FEED && LINE_FEED !in t[..n]
  {
    if t == [] then -1
    else if t[0] == LINE_FEED then 0
    else
      var n := IndexOfLineFeed(t[1..]);
      assert t == [t[0]] + t[1..];
      assert n != -1 ==> t[..n + 1] == [t[0]] + t[1..][..n];
      if n == -1 then -1 else n + 1
  }

  /**
   `handled` are the lines given to the parser. A `null` line ends the whole process: the property access that
   follows throws on the value `null` only, and the exception reaches the uncaught exception handler
   (src/index.ts:18-21). A trimmed line has that value when it is the text `null`: see `TrimmedNull`.
   */
  datatype Reader = Reading(buffer: Text, handled: seq<Text>) | Exited(handled: seq<Text>)

  function ProcessBuffer(buffer: Text, handled: seq<Text>): Reader
    decreases |buffer|
  {
    var n := IndexOfLineFeed(buffer);
    if n == -1 then Reading(buffer, handled)
    else
      var line := Trim(buffer[..n]);
      if line == [] then ProcessBuffer(buffer[n + 1..], handled)
      else if line == NULL_TEXT then Exited(handled + [line])
      else ProcessBuffer(buffer[n + 1..], handled + [line])
  }

  function OnData(r: Reader, chunk: Text): Reader {
    if r.Exited? then r else ProcessBuffer(r.buffer + chunk, r.handled)
  }

  // ---------------------------------------------------------------------------------------------
  // The text and its lines

  function Lines(t: Text): seq<Text>
    decreases |t|
  {
    var n := IndexOfLineFeed(t);
    if n == -1 then [] else [t[..n]] + Lines(t[n + 1..])
  }

  function Leftover(t: Text): Text
    decreases |t|
  {
    var n := IndexOfLineFeed(t);
    if n == -1 then t else Leftover(t[n + 1..])
  }

  function Join(lines: seq<Text>): Text {
    if lines == [] then [] else lines[0] + [LINE_FEED] + Join(lines[1..])
  }

  ghost predicate Plain(lines: seq<Text>) {
    forall i :: 0 <= i < |lines| ==> LINE_FEED !in lines[i]
  }

  lemma JoinCons(first: Text, lines: seq<Text>, left: Text)
    ensures Join([first] + lines) + left == first + [LINE_FEED] + (Join(lines) + left)
  {
    assert ([first] + lines)[1..] == lines;
  }

  lemma PlainCons(first: Text, lines: seq<Text>)
    ensures Plain([first] + lines) <==> LINE_FEED !in first && Plain(lines)
  {
    var all := [first] + lines;
    assert all[0] == first;
    assert forall i :: 0 <= i < |lines| ==> lines[i] == all[i + 1];
  }

  /** Cutting a text into lines loses nothing. */
  lemma {:induction false} LinesJoinBack(t: Text)
    ensures Plain(Lines(t)) && LINE_FEED !in Leftover(t) && Join(Lines(t)) + Leftover(t) == t
    decreases |t|
  {
    hide Plain, Join, IndexOfLineFeed;
    var n := IndexOfLineFeed(t);
    if n == -1 {
      NoLines(t);
    } else {
      LinesJoinBack(t[n + 1..]);
      LineBefore(t, n, Lines(t[n + 1..]), Leftover(t[n + 1..]));
    }
  }

  lemma LineBefore(t: Text, n: nat, lines: seq<Text>, left: Text)
    requires n < |t| && t[n] == LINE_FEED && LINE_FEED !in t[..n]
    requires Plain(lines) && Join(lines) + left == t[n + 1..]
    ensures Plain([t[..n]] + lines) && Join([t[..n]] + lines) + left == t
  {
    hide Plain, Join;
    PlainCons(t[..n], lines);
    JoinCons(t[..n], lines, left);
    assert t[..n] + [LINE_FEED] + t[n + 1..] == t;
  }

  lemma NoLines(t: Text)
    ensures Plain([]) && Join([]) + t == t
  {
  }

  lemma FirstLine(a: Text, rest: Text)
    requires LINE_FEED !in a
    ensures IndexOfLineFeed(a + [LINE_FEED] + rest) == |a|
    ensures (a + [LINE_FEED] + rest)[..|a|] == a && (a + [LINE_FEED] + rest)[|a| + 1..] == rest
  {
    hide IndexOfLineFeed;
    var t := a + [LINE_FEED] + rest;
    var n := IndexOfLineFeed(t);
    assert t[|a|] == LINE_FEED;
    assert t[..n] + [LINE_FEED] + t[n + 1..] == t;
    FirstSplitUnique(a, t[..n], LINE_FEED, rest, t[n + 1..]);
  }

  /** And no text comes apart in two ways. */
  lemma {:induction false} LinesUnique(lines: seq<Text>, rest: Text)
    requires Plain(lines) && LINE_FEED !in rest
    ensures Lines(Join(lines) + rest) == lines && Leftover(Join(lines) + rest) == rest
    decreases lines
  {
    hide Plain, Join, IndexOfLineFeed;
    if lines == [] {
      NoLines(rest);
      NoLineFeed(rest);
    } else {
      var first, others := lines[0], lines[1..];
      assert lines == [first] + others;
      PlainCons(first, others);
      LinesUnique(others, rest);
      FirstLine(first, Join(others) + rest);
      JoinCons(first, others, rest);
    }
  }

  lemma NoLineFeed(t: Text)
    requires LINE_FEED !in t
    ensures IndexOfLineFeed(t) == -1
  {
  }

  /** A peer that prints one JSON value per line is read back value by value. */
  lemma {:induction false} PrintedMessagesAreLines(messages: seq<Json>)
    ensures var printed := seq(|messages|, i requires 0 <= i < |messages| => Print(messages[i]));
            Lines(Join(printed)) == printed && Leftover(Join(printed)) == []
  {
    var printed := seq(|messages|, i requires 0 <= i < |messages| => Print(messages[i]));
    forall i | 0 <= i < |printed| ensures LINE_FEED !in printed[i] {
      NoLineFeedInValue(messages[i], []);
    }
    LinesUnique(printed, []);
    assert Join(printed) + [] == Join(printed);
  }

  // ---------------------------------------------------------------------------------------------
  // Chunks

  function HandleLines(lines: seq<Text>, leftover: Text, handled: seq<Text>): Reader {
    if lines == [] then Reading(leftover, handled)
    else
      var line := Trim(lines[0]);
      if line == [] then HandleLines(lines[1..], leftover, handled)
      else if line == NULL_TEXT then Exited(handled + [line])
      else HandleLines(lines[1..], leftover, handled + [line])
  }

  lemma {:induction false} BufferByLines(buffer: Text, handled: seq<Text>)
    ensures ProcessBuffer(buffer, handled) == HandleLines(Lines(buffer), Leftover(buffer), handled)
    decreases |buffer|
  {
    hide Trim;
    var n := IndexOfLineFeed(buffer);
    if n != -1 {
      var line := Trim(buffer[..n]);
      assert Lines(buffer)[1..] == Lines(buffer[n + 1..]);
      BufferByLines(buffer[n + 1..], handled);
      BufferByLines(buffer[n + 1..], handled + [line]);
    }
  }

  /** The first line of a buffer and what is done with the rest. */
  lemma ProcessLine(first: Text, rest: Text, handled: seq<Text>)
    requires LINE_FEED !in first
    ensures var line := Trim(first);
            ProcessBuffer(first + [LINE_FEED] + rest, handled)
            == if line == [] then ProcessBuffer(rest, handled)
               else if line == NULL_TEXT then Exited(handled + [line])
               else ProcessBuffer(rest, handled + [line])
  {
    hide Trim, IndexOfLineFeed;
    FirstLine(first, rest);
  }

  lemma ProcessNoLine(buffer: Text, handled: seq<Text>)
    requires IndexOfLineFeed(buffer) == -1
    ensures ProcessBuffer(buffer, handled) == Reading(buffer, handled)
  {
    hide IndexOfLineFeed;
  }

  lemma SplitAtLine(buffer: Text, n: nat, more: Text)
    requires n < |buffer| && buffer[n] == LINE_FEED
    ensures buffer == buffer[..n] + [LINE_FEED] + buffer[n + 1..]
    ensures buffer + more == buffer[..n] + [LINE_FEED] + (buffer[n + 1..] + more)
  {
  }

  lemma {:induction false} ProcessThenMore(buffer: Text, more: Text, handled: seq<Text>)
    ensures ProcessBuffer(buffer + more, handled) == OnData(ProcessBuffer(buffer, handled), more)
    decreases |buffer|
  {
    hide Trim, ProcessBuffer, IndexOfLineFeed;
    var n := IndexOfLineFeed(buffer);
    if n == -1 {
      ProcessNoLine(buffer, handled);
    } else {
      var first, rest := buffer[..n], buffer[n + 1..];
      SplitAtLine(buffer, n, more);
      ProcessLine(first, rest, handled);
      ProcessLine(first, rest + more, handled);
      ProcessThenMore(rest, more, handled);
      ProcessThenMore(rest, more, handled + [Trim(first)]);
    }
  }

  /** Two chunks have the effect of one. */
  lemma ChunksMerge(r: Reader, a: Text, b: Text)
    ensures OnData(OnData(r, a), b) == OnData(r, a + b)
  {
    hide ProcessBuffer;
    if r.Reading? {
      ProcessThenMore(r.buffer + a, b, r.handled);
      assert r.buffer + a + b == r.buffer + (a + b);
    }
  }

  datatype Chunks = Nothing | Then(past: Chunks, chunk: Text)

  function Received(chunks: Chunks): Text {
    match chunks
    case Nothing => []
    case Then(past, chunk) => Received(past) + chunk
  }

  function Fed(chunks: Chunks): Reader {
    match chunks
    case Nothing => Reading([], [])
    case Then(past, chunk) => OnData(Fed(past), chunk)
  }

  lemma {:induction false} FedAtOnce(chunks: Chunks)
    ensures Fed(chunks) == OnData(Reading([], []), Received(chunks))
  {
    hide OnData;
    match chunks
    case Nothing => NothingFed();
    case Then(past, chunk) => {
      FedAtOnce(past);
      ChunksMerge(Reading([], []), Received(past), chunk);
    }
  }

  lemma NothingFed()
    ensures OnData(Reading([], []), []) == Reading([], [])
  {
  }

  /** What is handled, and what is left over, depends on the received text alone: it is split into its lines. */
  lemma ChunkingDoesNotMatter(chunks: Chunks)
    ensures Fed(chunks) == HandleLines(Lines(Received(chunks)), Leftover(Received(chunks)), [])
    ensures Fed(chunks).Reading? ==> LINE_FEED !in Fed(chunks).buffer
  {
    hide Fed, ProcessBuffer, HandleLines, Lines, Leftover;
    FedAtOnce(chunks);
    var text := Received(chunks);
    assert [] + text == text;
    BufferByLines(text, []);
    LinesJoinBack(text);
    LeftAtEnd(Lines(text), Leftover(text), []);
  }

  lemma {:induction false} LeftAtEnd(lines: seq<Text>, leftover: Text, handled: seq<Text>)
    ensures var r := HandleLines(lines, leftover, handled); r.Reading? ==> r.buffer == leftover
  {
    hide Trim;
    if lines != [] {
      LeftAtEnd(lines[1..], leftover, handled);
      LeftAtEnd(lines[1..], leftover, handled + [Trim(lines[0])]);
    }
  }

  // ---------------------------------------------------------------------------------------------
  // What trimming leaves of a line

  /** The code points of WhiteSpace and of LineTerminator (sections 12.2 and 12.3 of ECMA-262). */
  const WHITE_SPACE: set<int> :=
    {0x09, 0x0A, 0x0B, 0x0C, 0x0D, 0x20, 0xA0, 0x1680, 0x2000, 0x2001, 0x2002, 0x2003, 0x2004, 0x2005, 0x2006, 0x2007,
     0x2008, 0x2009, 0x200A, 0x2028, 0x2029, 0x202F, 0x205F, 0x3000, 0xFEFF}

  ghost predicate AllWhite(t: Text) {
    forall i :: 0 <= i < |t| ==> t[i] in WHITE_SPACE
  }

  predicate Bare(t: Text) {
    t == [] || (t[0] !in WHITE_SPACE && t[|t| - 1] !in WHITE_SPACE)
  }

  predicate Around(before: Text, body: Text, after: Text, t: Text) {
    t == before + body + after
  }

  lemma SpaceExactly(u: CodeUnit)
    ensures IsSpace(u) <==> u in WHITE_SPACE
  {
  }

  lemma {:induction false} StartCutsSpace(t: Text) returns (before: Text)
    ensures AllWhite(before) && t == before + TrimStart(t)
  {
    if t != [] && IsSpace(t[0]) {
      var rest := StartCutsSpace(t[1..]);
      before := [t[0]] + rest;
      assert t == [t[0]] + t[1..];
    } else {
      before := [];
    }
  }

  lemma {:induction false} EndCutsSpace(t: Text) returns (after: Text)
    ensures AllWhite(after) && t == TrimEnd(t) + after
  {
    if t != [] && IsSpace(t[|t| - 1]) {
      var rest := EndCutsSpace(t[..|t| - 1]);
      after := rest + [t[|t| - 1]];
      assert t == t[..|t| - 1] + [t[|t| - 1]];
    } else {
      after := [];
    }
  }

  lemma {:induction false} StartOfPadded(before: Text, rest: Text)
    requires AllWhite(before) && (rest == [] || rest[0] !in WHITE_SPACE)
    ensures TrimStart(before + rest) == rest
  {
    if before != [] {
      assert before[0] in WHITE_SPACE;
      assert (before + rest)[1..] == before[1..] + rest;
      StartOfPadded(before[1..], rest);
    } else {
      assert before + rest == rest;
      if rest != [] { SpaceExactly(rest[0]); }
    }
  }

  lemma {:induction false} EndOfPadded(body: Text, after: Text)
    requires AllWhite(after) && Bare(body)
    ensures TrimEnd(body + after) == body
    decreases |after|
  {
    var n := |after|;
    if n > 0 {
      assert (body + after)[..|body + after| - 1] == body + after[..n - 1];
      assert (body + after)[|body + after| - 1] == after[n - 1];
      SpaceExactly(after[n - 1]);
      EndOfPadded(body, after[..n - 1]);
    } else {
      assert body + after == body;
      if body != [] { SpaceExactly(body[|body| - 1]); }
    }
  }

  lemma {:induction false} SpaceOnly(t: Text)
    requires AllWhite(t)
    ensures TrimStart(t) == []
  {
    if t != [] { SpaceExactly(t[0]); SpaceOnly(t[1..]); }
  }

  lemma TrimPadded(before: Text, body: Text, after: Text)
    requires AllWhite(before) && AllWhite(after) && Bare(body)
    ensures Trim(before + body + after) == body
  {
    if body == [] {
      assert before + body + after == before + after;
      SpaceOnly(before + after);
    } else {
      assert before + body + after == before + (body + after);
      StartOfPadded(before, body + after);
      EndOfPadded(body, after);
    }
  }

  /** Trimming takes white space off both ends, all of it and nothing else. */
  lemma TrimExactly(t: Text, line: Text)
    ensures Trim(t) == line
            <==> Bare(line)
                 && exists before, after :: Around(before, line, after, t) && AllWhite(before) && AllWhite(after)
  {
    hide TrimStart, TrimEnd, IsSpace;
    if Trim(t) == line {
      TrimmedBothEnds(t);
      if line != [] {
        SpaceExactly(line[0]);
        SpaceExactly(line[|line| - 1]);
      }
      var before := StartCutsSpace(t);
      var after := EndCutsSpace(TrimStart(t));
      assert Around(before, line, after, t);
    }
    hide Trim;
    if before, after :| Around(before, line, after, t) && AllWhite(before) && AllWhite(after) {
      if Bare(line) { TrimPadded(before, line, after); }
    }
  }

  // ---------------------------------------------------------------------------------------------
  // Messages from end to end

  ghost predicate EndsBare(t: Text) {
    t == [] || t[|t| - 1] !in WHITE_SPACE
  }

  lemma EndsBareBehind(a: Text, b: Text)
    requires b != [] && EndsBare(b)
    ensures EndsBare(a + b) && a + b != []
  {
    assert (a + b)[|a + b| - 1] == b[|b| - 1];
  }

  lemma {:induction false} StringEndsBare(s: Text, rest: Text)
    requires EndsBare(rest)
    ensures EndsBare(EscapeOnto(s, rest)) && EscapeOnto(s, rest) != []
    decreases |s|
  {
    hide EndsBare, EscapeUnit;
    if s == [] {
      if rest == [] { QuoteEndsBare(); } else { EndsBareBehind([QUOTE], rest); }
    } else if StartsWithPair(s) {
      StringEndsBare(s[2..], rest);
      EndsBareBehind([s[1]], EscapeOnto(s[2..], rest));
      EndsBareBehind([s[0]], [s[1]] + EscapeOnto(s[2..], rest));
    } else {
      StringEndsBare(s[1..], rest);
      EndsBareBehind(EscapeUnit(s[0]), EscapeOnto(s[1..], rest));
    }
  }

  lemma QuoteEndsBare()
    ensures EndsBare([QUOTE] + [])
  {
  }

  lemma {:induction false} ValueEndsBare(v: Json, rest: Text)
    requires EndsBare(rest)
    ensures EndsBare(PrintOnto(v, rest)) && PrintOnto(v, rest) != []
    decreases v
  {
    hide EscapeOnto;
    match v
    case Null => WordEndsBare(NULL_TEXT, rest);
    case Boolean(b) => WordEndsBare(if b then TRUE_TEXT else FALSE_TEXT, rest);
    case Number(repr) => {
      assert IsNumberUnit(repr[|repr| - 1]);
      WordEndsBare(repr, rest);
    }
    case String(s) => {
      StringEndsBare(s, rest);
      EndsBareBehind([QUOTE], EscapeOnto(s, rest));
    }
    case Array(items) =>
      if items != [] {
        ItemsEndBare(items[1..], rest);
        ValueEndsBare(items[0], ItemsOnto(items[1..], rest));
        EndsBareBehind([OPEN_BRACKET], PrintOnto(items[0], ItemsOnto(items[1..], rest)));
      } else {
        WordEndsBare([CLOSE_BRACKET], rest);
        EndsBareBehind([OPEN_BRACKET], [CLOSE_BRACKET] + rest);
      }
    case Object(members) =>
      if members != [] {
        MembersEndBare(members[1..], rest);
        MemberEndsBare(members[0], MembersOnto(members[1..], rest));
        EndsBareBehind([OPEN_BRACE], MemberOnto(members[0], MembersOnto(members[1..], rest)));
      } else {
        WordEndsBare([CLOSE_BRACE], rest);
        EndsBareBehind([OPEN_BRACE], [CLOSE_BRACE] + rest);
      }
  }

  lemma WordEndsBare(word: Text, rest: Text)
    requires word != [] && word[|word| - 1] !in WHITE_SPACE && EndsBare(rest)
    ensures EndsBare(word + rest) && word + rest != []
  {
  }

  lemma {:induction false} ItemsEndBare(items: seq<Json>, rest: Text)
    requires EndsBare(rest)
    ensures EndsBare(ItemsOnto(items, rest)) && ItemsOnto(items, rest) != []
    decreases items
  {
    if items == [] {
      WordEndsBare([CLOSE_BRACKET], rest);
    } else {
      ItemsEndBare(items[1..], rest);
      ValueEndsBare(items[0], ItemsOnto(items[1..], rest));
      EndsBareBehind([COMMA], PrintOnto(items[0], ItemsOnto(items[1..], rest)));
    }
  }

  lemma {:induction false} MemberEndsBare(m: Member, rest: Text)
    requires EndsBare(rest)
    ensures EndsBare(MemberOnto(m, rest)) && MemberOnto(m, rest) != []
    decreases m
  {
    ValueEndsBare(m.value, rest);
    EndsBareBehind([COLON], PrintOnto(m.value, rest));
    StringEndsBare(m.key, [COLON] + PrintOnto(m.value, rest));
    EndsBareBehind([QUOTE], EscapeOnto(m.key, [COLON] + PrintOnto(m.value, rest)));
  }

  lemma {:induction false} MembersEndBare(members: seq<Member>, rest: Text)
    requires EndsBare(rest)
    ensures EndsBare(MembersOnto(members, rest)) && MembersOnto(members, rest) != []
    decreases members
  {
    if members == [] {
      WordEndsBare([CLOSE_BRACE], rest);
    } else {
      MembersEndBare(members[1..], rest);
      MemberEndsBare(members[0], MembersOnto(members[1..], rest));
      EndsBareBehind([COMMA], MemberOnto(members[0], MembersOnto(members[1..], rest)));
    }
  }

  /** No printed value begins or ends with white space. */
  lemma PrintIsBare(v: Json)
    ensures Bare(Print(v)) && Print(v) != []
  {
    ValueEndsBare(v, []);
    assert v.Number? ==> IsNumberUnit(v.repr[0]);
    assert Print(v)[0] !in WHITE_SPACE;
  }

  /** A line that a peer writes: a message or nothing, with white space around it. */
  datatype PeerLine = PeerLine(before: Text, message: Option<Json>, after: Text)

  function Written(line: PeerLine): Text {
    line.before + (if line.message.Some? then Print(line.message.value) else []) + line.after
  }

  ghost predicate Padded(line: PeerLine) {
    AllWhite(line.before) && AllWhite(line.after) && LINE_FEED !in line.before && LINE_FEED !in line.after
  }

  function AllWritten(lines: seq<PeerLine>): seq<Text> {
    seq(|lines|, i requires 0 <= i < |lines| => Written(lines[i]))
  }

  /** The messages of the lines in order, as they are printed. */
  function Messages(lines: seq<PeerLine>): seq<Text> {
    if lines == [] then []
    else (if lines[0].message.Some? then [Print(lines[0].message.value)] else []) + Messages(lines[1..])
  }

  lemma WrittenTrims(line: PeerLine)
    requires Padded(line) && line.message != Some(Null)
    ensures LINE_FEED !in Written(line)
    ensures Trim(Written(line)) == if line.message.Some? then Print(line.message.value) else []
    ensures Trim(Written(line)) != NULL_TEXT && (line.message.Some? ==> Trim(Written(line)) != [])
  {
    hide Trim, Print, Bare, AllWhite;
    match line.message
    case None => BareNothing(); TrimPadded(line.before, [], line.after);
    case Some(v) => {
      PrintIsBare(v);
      TrimPadded(line.before, Print(v), line.after);
      assert LINE_FEED !in Print(v) by { PrintHasNoLineFeed(v); }
      assert Print(v) != NULL_TEXT by { OnlyNullPrintsNull(v); }
    }
  }

  lemma BareNothing()
    ensures Bare([])
  {
  }

  lemma PrintHasNoLineFeed(v: Json)
    ensures LINE_FEED !in Print(v)
  {
    NoLineFeedInValue(v, []);
  }

  lemma OnlyNullPrintsNull(v: Json)
    ensures Print(v) == NULL_TEXT <==> v == Null
  {
    if v.Number? { assert IsNumberUnit(v.repr[0]) && v.repr + [] == v.repr; }
    assert NULL_TEXT + [] == NULL_TEXT && TRUE_TEXT + [] == TRUE_TEXT && FALSE_TEXT + [] == FALSE_TEXT;
    assert NULL_TEXT[0] == 110 && TRUE_TEXT[0] == 116 && FALSE_TEXT[0] == 102;
  }

  lemma {:induction false} MessagesHandled(lines: seq<PeerLine>, leftover: Text, handled: seq<Text>)
    requires forall i :: 0 <= i < |lines| ==> Padded(lines[i]) && lines[i].message != Some(Null)
    ensures HandleLines(AllWritten(lines), leftover, handled) == Reading(leftover, handled + Messages(lines))
  {
    hide Trim, Print, Written, Padded;
    if lines == [] {
      assert handled + [] == handled;
    } else {
      WrittenTrims(lines[0]);
      assert AllWritten(lines)[1..] == AllWritten(lines[1..]);
      var more := if lines[0].message.Some? then [Print(lines[0].message.value)] else [];
      MessagesHandled(lines[1..], leftover, handled + more);
      assert lines[0].message.None? ==> handled + more == handled;
      assert handled + more + Messages(lines[1..]) == handled + (more + Messages(lines[1..]));
    }
  }

  /**
   A peer that prints a value other than null on each line, with blank lines and white space as it likes, is read back
   message by message however its output is cut into chunks.
   */
  lemma MessagesArrive(lines: seq<PeerLine>, rest: Text, chunks: Chunks)
    requires forall i :: 0 <= i < |lines| ==> Padded(lines[i]) && lines[i].message != Some(Null)
    requires LINE_FEED !in rest && Received(chunks) == Join(AllWritten(lines)) + rest
    ensures Fed(chunks) == Reading(rest, Messages(lines))
  {
    hide *;
    ChunkingDoesNotMatter(chunks);
    PlainWritten(lines);
    LinesUnique(AllWritten(lines), rest);
    MessagesHandled(lines, rest, []);
    assert [] + Messages(lines) == Messages(lines);
  }

  lemma PlainWritten(lines: seq<PeerLine>)
    requires forall i :: 0 <= i < |lines| ==> Padded(lines[i]) && lines[i].message != Some(Null)
    ensures Plain(AllWritten(lines))
  {
    hide Written, Padded, Trim;
    forall i | 0 <= i < |lines| ensures LINE_FEED !in AllWritten(lines)[i] {
      WrittenTrims(lines[i]);
    }
  }

  // ---------------------------------------------------------------------------------------------
  // The line that ends the process

  /** The white space of JSON (section 2 of RFC 8259). */
  predicate IsJsonSpace(u: CodeUnit) {
    u == 32 || u == TAB || u == LINE_FEED || u == RETURN
  }

  ghost predicate AllJsonSpace(t: Text) {
    forall i :: 0 <= i < |t| ==> IsJsonSpace(t[i])
  }

  predicate NullBetween(before: Text, after: Text, t: Text) {
    t == before + NULL_TEXT + after
  }

  /** The JSON text has the value `null`: it is that literal, with white space around it. */
  ghost predicate HasNullValue(t: Text) {
    exists before, after :: NullBetween(before, after, t) && AllJsonSpace(before) && AllJsonSpace(after)
  }

  lemma {:induction false} TrimmedStart(t: Text)
    ensures TrimStart(t) == [] || !IsSpace(TrimStart(t)[0])
  {
    if t != [] { TrimmedStart(t[1..]); }
  }

  lemma {:induction false} TrimmedEnd(t: Text)
    ensures TrimEnd(t) == [] || (!IsSpace(TrimEnd(t)[|TrimEnd(t)| - 1]) && TrimEnd(t)[0] == t[0])
  {
    if t != [] { TrimmedEnd(t[..|t| - 1]); }
  }

  lemma TrimmedBothEnds(t: Text)
    ensures var line := Trim(t); line == [] || (!IsSpace(line[0]) && !IsSpace(line[|line| - 1]))
  {
    TrimmedStart(t);
    TrimmedEnd(TrimStart(t));
  }

  lemma OnlyNull(before: Text, after: Text, line: Text)
    requires NullBetween(before, after, line) && AllJsonSpace(before) && AllJsonSpace(after)
    requires !IsSpace(line[0]) && !IsSpace(line[|line| - 1])
    ensures line == NULL_TEXT
  {
    NullEnds(before, after, line);
    assert before == [] && after == [];
    assert [] + NULL_TEXT + [] == NULL_TEXT;
  }

  lemma NullEnds(before: Text, after: Text, line: Text)
    requires NullBetween(before, after, line)
    ensures before != [] ==> line[0] == before[0]
    ensures after != [] ==> line[|line| - 1] == after[|after| - 1]
  {
  }

  /** Of the trimmed lines exactly the text `null` has the value `null`: whatever white space JSON allows is cut off. */
  lemma TrimmedNull(t: Text)
    ensures HasNullValue(Trim(t)) <==> Trim(t) == NULL_TEXT
  {
    hide Trim, IsSpace, IsJsonSpace;
    var line := Trim(t);
    TrimmedBothEnds(t);
    if HasNullValue(line) {
      var before, after :| NullBetween(before, after, line) && AllJsonSpace(before) && AllJsonSpace(after);
      OnlyNull(before, after, line);
    }
    assert [] + NULL_TEXT + [] == NULL_TEXT;
    assert NullBetween([], [], NULL_TEXT);
  }

  lemma {:induction false} HandledExits(lines: seq<Text>, leftover: Text, handled: seq<Text>)
    ensures HandleLines(lines, leftover, handled).Exited? <==>
              exists i :: 0 <= i < |lines| && Trim(lines[i]) == NULL_TEXT
  {
    hide Trim;
    if lines != [] {
      var rest := lines[1..];
      HandledExits(rest, leftover, handled);
      HandledExits(rest, leftover, handled + [Trim(lines[0])]);
      SomeLine(lines);
    }
  }

  lemma SomeLine(lines: seq<Text>)
    requires lines != []
    ensures (exists i :: 0 <= i < |lines| && Trim(lines[i]) == NULL_TEXT) <==>
              Trim(lines[0]) == NULL_TEXT || exists i :: 0 <= i < |lines[1..]| && Trim(lines[1..][i]) == NULL_TEXT
  {
    hide Trim;
    if i :| 0 <= i < |lines| && Trim(lines[i]) == NULL_TEXT {
      if i > 0 { assert lines[1..][i - 1] == lines[i]; }
    }
    if i :| 0 <= i < |lines[1..]| && Trim(lines[1..][i]) == NULL_TEXT {
      assert lines[i + 1] == lines[1..][i];
    }
  }

  /** The process ends exactly when some complete line, trimmed, has the JSON value `null`. */
  lemma ExitsAtNull(chunks: Chunks)
    ensures var lines := Lines(Received(chunks));
            Fed(chunks).Exited? <==> exists i :: 0 <= i < |lines| && HasNullValue(Trim(lines[i]))
  {
    ChunkingDoesNotMatter(chunks);
    var lines := Lines(Received(chunks));
    HandledExits(lines, Leftover(Received(chunks)), []);
    hide *;
    forall i | 0 <= i < |lines| ensures HasNullValue(Trim(lines[i])) <==> Trim(lines[i]) == NULL_TEXT {
      TrimmedNull(lines[i]);
    }
  }

  /** For instance at a line that is the text `null`. */
  lemma NullTextExits()
    ensures Fed(Then(Nothing, NULL_TEXT + [LINE_FEED])) == Exited([NULL_TEXT])
  {
    FirstLine(NULL_TEXT, []);
    assert NULL_TEXT + [LINE_FEED] + [] == NULL_TEXT + [LINE_FEED];
    assert [] + (NULL_TEXT + [LINE_FEED]) == NULL_TEXT + [LINE_FEED];
    assert TrimStart(NULL_TEXT) == NULL_TEXT && TrimEnd(NULL_TEXT) == NULL_TEXT;
    hide Trim, TrimStart, TrimEnd, IndexOfLineFeed;
    NullLine();
  }

  lemma NullLine()
    requires IndexOfLineFeed(NULL_TEXT + [LINE_FEED]) == |NULL_TEXT|
    requires (NULL_TEXT + [LINE_FEED])[..|NULL_TEXT|] == NULL_TEXT && Trim(NULL_TEXT) == NULL_TEXT
    ensures ProcessBuffer(NULL_TEXT + [LINE_FEED], []) == Exited([NULL_TEXT])
  {
    hide Trim, IndexOfLineFeed;
  }

  class LineReader {
    var stdoutBuffer: Text
    var handled: seq<Text>
    var exited: bool

    constructor ()
      ensures Value() == Reading([], [])
    {
      stdoutBuffer, handled, exited := [], [], false;
    }

    ghost function Value(): Reader
      reads this
    {
      if exited then Exited(handled) else Reading(stdoutBuffer, handled)
    }

    method OnChunk(chunk: Text)
      modifies this
      ensures Value() == OnData(old(Value()), chunk)
    {
      if exited {
        return;
      }
      stdoutBuffer := stdoutBuffer + chunk;
      DrainBuffer();
    }

    method DrainBuffer()
      requires !exited
      modifies this
      ensures Value() == ProcessBuffer(old(stdoutBuffer), old(handled))
    {
      hide Trim;
      var newlineIdx := IndexOfLineFeed(stdoutBuffer);
      while newlineIdx != -1
        invariant !exited && newlineIdx == IndexOfLineFeed(stdoutBuffer)
        invariant ProcessBuffer(stdoutBuffer, handled) == ProcessBuffer(old(stdoutBuffer), old(handled))
        decreases |stdoutBuffer|
      {
        var line := Trim(stdoutBuffer[..newlineIdx]);
        stdoutBuffer := stdoutBuffer[newlineIdx + 1..];
        newlineIdx := IndexOfLineFeed(stdoutBuffer);
        if line != [] {
          handled := handled + [line];
          if line == NULL_TEXT {
            exited := true;
            return;
          }
        }
      }
    }
  }
}
