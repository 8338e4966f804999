/** What the server writes is what the client's parser reads, however the text arrives. */
module SseText {
  import opened Domain
  import opened SseParser

  // ----- a line is a field name and a value -----

  // A line without colon is a field with the empty value. After the colon one space does not
  // belong to the value.
  predicate ReadsAs(line: string, field: string, value: string) {
    ':' !in field &&
    (|| (line == field && value == "")
     || line == field + ": " + value
     || (line == field + ":" + value && (value == "" || value[0] != ' ')))
  }

  lemma ColonAt(field: string, rest: string)
    requires ':' !in field
    ensures IndexOf(field, ':') == |field|
    ensures IndexOf(field + ":" + rest, ':') == |field|
  {
    var line := field + ":" + rest;
    assert line[|field|] == ':';
    assert forall j | 0 <= j < |field| :: line[j] == field[j] && field[j] in field;
    hide IndexOf;
  }

  // The parser's field and value are the only ones the line reads as.
  lemma FieldsAreRead(line: string, field: string, value: string)
    ensures ReadsAs(line, field, value) <==> Field(line) == field && Value(line) == value
  {
    if ReadsAs(line, field, value) { ReadFields(line, field, value); }
    if Field(line) == field && Value(line) == value { OwnReading(line); }
  }

  lemma ReadFields(line: string, field: string, value: string)
    requires ReadsAs(line, field, value)
    ensures Field(line) == field && Value(line) == value
  {
    hide IndexOf;
    if line == field && value == "" {
      ColonAt(field, "");
      assert line[..|field|] == field;
    } else if line == field + ": " + value {
      assert line == field + ":" + (" " + value);
      ColonAt(field, " " + value);
      assert line[..|field|] == field && line[|field| + 1] == ' ' && line[|field| + 2..] == value;
    } else {
      ColonAt(field, value);
      assert line[..|field|] == field && line[|field| + 1..] == value;
      assert value != "" ==> line[|field| + 1] == value[0];
    }
  }

  lemma OwnReading(line: string)
    ensures ReadsAs(line, Field(line), Value(line))
  {
    hide IndexOf;
    var colon := IndexOf(line, ':');
    assert ':' !in line[..colon];
    if colon == |line| {
      assert line[..colon] == line;
    } else if colon + 1 < |line| && line[colon + 1] == ' ' {
      assert line == line[..colon] + ": " + line[colon + 2..];
    } else {
      assert line == line[..colon] + ":" + line[colon + 1..];
    }
  }

  // ----- data lines -----

  function SplitFeeds(s: string): (lines: seq<string>)
    ensures lines != []
  {
    if s == "" then [""]
    else if s[0] == '\n' then [""] + SplitFeeds(s[1..])
    else
      var rest := SplitFeeds(s[1..]);
      [[s[0]] + rest[0]] + rest[1..]
  }

  lemma JoinLast(lines: seq<string>, last: string)
    requires lines != []
    ensures Join(lines + [last]) == Join(lines) + ("\n" + last)
  {
    assert (lines + [last])[..|lines|] == lines;
    assert Join(lines) + "\n" + last == Join(lines) + ("\n" + last);
  }

  lemma {:induction false} JoinHead(line: string, rest: seq<string>)
    requires rest != []
    ensures Join([line] + rest) == line + "\n" + Join(rest)
    decreases |rest|
  {
    hide Join;
    var front, last := rest[..|rest| - 1], rest[|rest| - 1];
    assert rest == front + [last] && [line] + rest == ([line] + front) + [last];
    JoinLast([line] + front, last);
    if front == [] {
      JoinOne(line);
      JoinOne(last);
      assert [line] + front == [line] && rest == [last];
    } else {
      JoinHead(line, front);
      JoinLast(front, last);
      Associates(line + "\n", Join(front), "\n" + last);
    }
  }

  lemma Associates(a: string, b: string, c: string)
    ensures a + b + c == a + (b + c)
  {
  }

  // Data that was cut at its line feeds is joined again.
  lemma {:induction false} JoinedAgain(s: string)
    ensures Join(SplitFeeds(s)) == s
    decreases |s|
  {
    hide Join;
    if s == "" {
      JoinOne("");
    } else {
      JoinedAgain(s[1..]);
      var rest := SplitFeeds(s[1..]);
      if s[0] == '\n' {
        JoinHead("", rest);
        assert s == "" + "\n" + s[1..];
      } else {
        JoinFirst([s[0]], rest);
        assert s == [s[0]] + s[1..];
      }
    }
  }

  lemma JoinOne(line: string)
    ensures Join([line]) == line
  {
  }

  lemma JoinFirst(start: string, lines: seq<string>)
    requires lines != []
    ensures Join([start + lines[0]] + lines[1..]) == start + Join(lines)
  {
    hide Join;
    if |lines| == 1 {
      JoinOne(lines[0]);
      JoinOne(start + lines[0]);
      assert lines == [lines[0]] && [start + lines[0]] + lines[1..] == [start + lines[0]];
    } else {
      JoinHead(lines[0], lines[1..]);
      JoinHead(start + lines[0], lines[1..]);
      assert lines == [lines[0]] + lines[1..];
      assert start + lines[0] + "\n" + Join(lines[1..]) == start + (lines[0] + "\n" + Join(lines[1..]));
    }
  }

  // Lines that were joined are found again by cutting at line feeds.
  lemma {:induction false} CutAgain(lines: seq<string>)
    requires lines != [] && forall i | 0 <= i < |lines| :: '\n' !in lines[i]
    ensures SplitFeeds(Join(lines)) == lines
    decreases |lines|
  {
    hide Join;
    if |lines| == 1 {
      JoinOne(lines[0]);
      CutOne(lines[0]);
      assert lines == [lines[0]];
    } else {
      CutAgain(lines[1..]);
      JoinHead(lines[0], lines[1..]);
      CutHead(lines[0], Join(lines[1..]));
      assert lines == [lines[0]] + lines[1..];
    }
  }

  lemma {:induction false} CutOne(line: string)
    requires '\n' !in line
    ensures SplitFeeds(line) == [line]
  {
    if line != "" {
      CutOne(line[1..]);
      assert line == [line[0]] + line[1..] && line[0] in line;
    }
  }

  lemma {:induction false} CutHead(line: string, rest: string)
    requires '\n' !in line
    ensures SplitFeeds(line + "\n" + rest) == [line] + SplitFeeds(rest)
    decreases |line|
  {
    var s := line + "\n" + rest;
    if line == "" {
      assert s[1..] == rest;
    } else {
      CutHead(line[1..], rest);
      assert s[1..] == line[1..] + "\n" + rest && line == [line[0]] + line[1..] && line[0] in line;
    }
  }

  // ----- the width of a character -----

  // The encoding of section 3 of RFC 3629.
  function Utf8(c: char): seq<int> {
    var n := c as int;
    if n < 0x80 then [n]
    else if n < 0x800 then [0xC0 + n / 0x40, 0x80 + n % 0x40]
    else if n < 0x1_0000 then [0xE0 + n / 0x1000, 0x80 + n / 0x40 % 0x40, 0x80 + n % 0x40]
    else [0xF0 + n / 0x4_0000, 0x80 + n / 0x1000 % 0x40, 0x80 + n / 0x40 % 0x40, 0x80 + n % 0x40]
  }

  // The scalar value that such bytes stand for, read off the lead byte.
  function ScalarOf(bytes: seq<int>): int
    requires 1 <= |bytes| <= 4
  {
    if bytes[0] < 0x80 then bytes[0]
    else if |bytes| == 2 then (bytes[0] - 0xC0) * 0x40 + (bytes[1] - 0x80)
    else if |bytes| == 3 then (bytes[0] - 0xE0) * 0x1000 + (bytes[1] - 0x80) * 0x40 + (bytes[2] - 0x80)
    else if |bytes| == 4 then
      (bytes[0] - 0xF0) * 0x4_0000 + (bytes[1] - 0x80) * 0x1000 + (bytes[2] - 0x80) * 0x40 + (bytes[3] - 0x80)
    else 0
  }

  // How long the sequence is that a lead byte announces.
  function Announced(lead: int): nat {
    if lead < 0x80 then 1 else if 0xC0 <= lead < 0xE0 then 2 else if 0xE0 <= lead < 0xF0 then 3 else 4
  }

  lemma WidthIsUtf8(c: char)
    ensures Width(c) == |Utf8(c)| == Announced(Utf8(c)[0]) && ScalarOf(Utf8(c)) == c as int
    ensures forall i | 0 <= i < |Utf8(c)| :: 0 <= Utf8(c)[i] < 0x100
  {
    var n := c as int;
    assert n == n / 0x40 * 0x40 + n % 0x40;
    assert n / 0x40 == n / 0x40 / 0x40 * 0x40 + n / 0x40 % 0x40 && n / 0x40 / 0x40 == n / 0x1000;
    assert n / 0x1000 == n / 0x1000 / 0x40 * 0x40 + n / 0x1000 % 0x40 && n / 0x1000 / 0x40 == n / 0x4_0000;
  }

  // ----- what the server writes -----

  datatype Item = Event(frame: SseFrame) | Comment(text: string)

  // What fits on lines of its own: JSON text, event names, decimal ids.
  predicate Sendable(item: Item) {
    match item
    case Event(frame) =>
      && frame.event != "" && NoEnding(frame.event) && '\r' !in frame.data
      && (frame.id.Some? ==> NoEnding(frame.id.value) && '\0' !in frame.id.value)
    case Comment(text) => NoEnding(text)
  }

  function FieldLine(field: string, value: string): Line {
    Line(field + ": " + value, Lf)
  }

  function DataLines(lines: seq<string>): seq<Line> {
    if lines == [] then [] else DataLines(lines[..|lines| - 1]) + [FieldLine("data", lines[|lines| - 1])]
  }

  // The lines of one item, without the blank line that ends it.
  function LinesOf(item: Item): seq<Line> {
    match item
    case Event(frame) =>
      (if frame.id.Some? then [FieldLine("id", frame.id.value)] else [])
      + [FieldLine("event", frame.event)] + DataLines(SplitFeeds(frame.data))
    case Comment(text) => [FieldLine("", text)]
  }

  function AllLines(items: seq<Item>): seq<Line> {
    if items == [] then [] else LinesOf(items[0]) + ([Line("", Lf)] + AllLines(items[1..]))
  }

  function SizeOf(lines: seq<Line>): nat {
    if lines == [] then 0 else SizeOf(lines[..|lines| - 1]) + lines[|lines| - 1].Size()
  }

  function FramesOf(items: seq<Item>): seq<SseFrame> {
    if items == [] then []
    else (match items[0] case Event(frame) => [frame] case Comment(_) => []) + FramesOf(items[1..])
  }

  ghost predicate AllSendable(items: seq<Item>, max: nat) {
    forall i | 0 <= i < |items| :: Sendable(items[i]) && SizeOf(LinesOf(items[i])) < max
  }

  // ----- the lines are the lines of the text -----

  ghost predicate PlainLines(lines: seq<Line>) {
    forall i | 0 <= i < |lines| :: NoEnding(lines[i].text) && lines[i].end == Lf
  }

  lemma {:induction false} PlainLinesSplit(lines: seq<Line>)
    requires PlainLines(lines)
    ensures IsSplit(Unsplit(lines), lines, "")
    decreases |lines|
  {
    hide NoEnding;
    if lines == [] {
      NoEndingInNothing();
    } else {
      PlainLinesSplit(lines[1..]);
      assert StartsWith(Unsplit(lines), lines[0], Unsplit(lines[1..]));
    }
  }

  lemma NoEndingInNothing()
    ensures NoEnding("")
  {
  }

  lemma PlainField(field: string, value: string)
    requires NoEnding(field) && NoEnding(value)
    ensures NoEnding(FieldLine(field, value).text)
  {
    var text := field + ": " + value;
    forall i | 0 <= i < |text| ensures !IsEnding(text[i]) {
      if i < |field| { assert text[i] == field[i]; }
      else if i >= |field| + 2 { assert text[i] == value[i - |field| - 2]; }
    }
  }

  lemma {:induction false} CutsArePlain(s: string)
    requires '\r' !in s
    ensures forall i | 0 <= i < |SplitFeeds(s)| :: NoEnding(SplitFeeds(s)[i])
  {
    if s != "" {
      CutsArePlain(s[1..]);
      assert s[0] in s;
    }
  }

  lemma {:induction false} DataLinesArePlain(lines: seq<string>)
    requires forall i | 0 <= i < |lines| :: NoEnding(lines[i])
    ensures PlainLines(DataLines(lines))
  {
    hide NoEnding;
    if lines != [] {
      DataLinesArePlain(lines[..|lines| - 1]);
      assert NoEnding("data") by { NoEndingInWord(); }
      PlainField("data", lines[|lines| - 1]);
    }
  }

  lemma NoEndingInWord()
    ensures NoEnding("data") && NoEnding("event") && NoEnding("id") && NoEnding("")
  {
  }

  lemma ItemIsPlain(item: Item)
    requires Sendable(item)
    ensures PlainLines(LinesOf(item))
  {
    hide NoEnding, SplitFeeds, FieldLine;
    NoEndingInWord();
    match item
    case Event(frame) =>
      CutsArePlain(frame.data);
      DataLinesArePlain(SplitFeeds(frame.data));
      PlainField("event", frame.event);
      if frame.id.Some? { PlainField("id", frame.id.value); }
      EndsInLf("event", frame.event);
      if frame.id.Some? { EndsInLf("id", frame.id.value); }
    case Comment(text) =>
      PlainField("", text);
      EndsInLf("", text);
  }

  lemma EndsInLf(field: string, value: string)
    ensures FieldLine(field, value).end == Lf
  {
  }

  lemma {:induction false} AllArePlain(items: seq<Item>, max: nat)
    requires AllSendable(items, max)
    ensures PlainLines(AllLines(items))
  {
    hide NoEnding, Sendable, LinesOf, SizeOf;
    if items != [] {
      ItemIsPlain(items[0]);
      AllArePlain(items[1..], max);
      NoEndingInNothing();
    }
  }

  // ----- a block is its frame -----

  // Lines of one block, a blank line, and whatever follows.
  lemma {:induction false} BlockCloses(block: seq<Line>, lines: seq<Line>, rest: seq<Line>, max: nat)
    requires forall i | 0 <= i < |lines| :: lines[i].text != ""
    requires SizeOf(block + lines) < max
    ensures ParseLines(block, lines + ([Line("", Lf)] + rest), max)
         == match ParseLines([], rest, max)
            case Ok(p) => Ok(Parsed(p.tail, FrameOf(block + lines) + p.frames))
            case Err(e) => Err(e)
    decreases |lines|
  {
    hide FrameOf, Charge, SizeOf;
    ChargeIsSize(block);
    var all := lines + ([Line("", Lf)] + rest);
    BlankIsOne();
    if lines == [] {
      assert block + lines == block && all[1..] == rest && all[0] == Line("", Lf);
    } else {
      SizeGrows(block + [lines[0]], lines[1..]);
      SizeOneMore(block, lines[0]);
      assert block + [lines[0]] + lines[1..] == block + lines;
      assert all[0] == lines[0] && all[1..] == lines[1..] + ([Line("", Lf)] + rest);
      BlockCloses(block + [lines[0]], lines[1..], rest, max);
    }
    if lines == [] { assert SizeOf(block) < max; }
  }

  lemma BlankIsOne()
    ensures Line("", Lf).Size() == 1
  {
  }

  lemma {:induction false} ChargeIsSize(block: seq<Line>)
    ensures Charge(block) <= SizeOf(block)
  {
    if block != [] { ChargeIsSize(block[..|block| - 1]); }
  }

  lemma SizeOneMore(block: seq<Line>, line: Line)
    ensures SizeOf(block + [line]) == SizeOf(block) + line.Size()
  {
    assert (block + [line])[..|block|] == block;
  }

  lemma {:induction false} SizeGrows(block: seq<Line>, lines: seq<Line>)
    ensures SizeOf(block) <= SizeOf(block + lines)
    decreases |lines|
  {
    if lines == [] {
      assert block + lines == block;
    } else {
      SizeGrows(block, lines[..|lines| - 1]);
      assert (block + lines)[..|block + lines| - 1] == block + lines[..|lines| - 1];
    }
  }

  lemma FieldIs(field: string, value: string)
    requires ':' !in field
    ensures Field(FieldLine(field, value).text) == field && Value(FieldLine(field, value).text) == value
    ensures FieldLine(field, value).text != "" && (IsComment(FieldLine(field, value).text) <==> field == "")
  {
    FieldsAreRead(field + ": " + value, field, value);
    assert (field + ": " + value)[0] == if field == "" then ':' else field[0];
    assert field != "" ==> field[0] in field;
    hide IndexOf;
  }

  // What a line adds to a block.
  lemma LineAdds(block: seq<Line>, field: string, value: string)
    requires ':' !in field && field != ""
    ensures var more := block + [FieldLine(field, value)];
            && DataOf(more) == DataOf(block) + (if field == "data" then [value] else [])
            && EventOf(more) == (if field == "event" then value else EventOf(block))
            && IdOf(more) == (if field == "id" && '\0' !in value then Some(value) else IdOf(block))
  {
    hide Field, Value, FieldLine;
    FieldIs(field, value);
    assert (block + [FieldLine(field, value)])[..|block|] == block;
  }

  lemma {:induction false} DataLinesAdd(block: seq<Line>, lines: seq<string>)
    ensures var more := block + DataLines(lines);
            DataOf(more) == DataOf(block) + lines && EventOf(more) == EventOf(block) && IdOf(more) == IdOf(block)
    ensures forall i | 0 <= i < |DataLines(lines)| :: DataLines(lines)[i].text != ""
    decreases |lines|
  {
    hide DataOf, EventOf, IdOf, FieldLine;
    if lines == [] {
      assert block + DataLines(lines) == block && DataOf(block) + lines == DataOf(block);
    } else {
      var front, last := lines[..|lines| - 1], lines[|lines| - 1];
      DataLinesAdd(block, front);
      LineAdds(block + DataLines(front), "data", last);
      FieldIs("data", last);
      assert block + (DataLines(front) + [FieldLine("data", last)]) == block + DataLines(front) + [FieldLine("data", last)];
      assert DataOf(block) + front + [last] == DataOf(block) + lines;
    }
  }

  lemma EventIsItsFrame(frame: SseFrame)
    requires Sendable(Event(frame))
    ensures FrameOf(LinesOf(Event(frame))) == [frame]
    ensures forall i | 0 <= i < |LinesOf(Event(frame))| :: LinesOf(Event(frame))[i].text != ""
  {
    hide DataOf, EventOf, IdOf, FieldLine, SplitFeeds, DataLines, Join, NoEnding;
    Nothing();
    var id := if frame.id.Some? then [FieldLine("id", frame.id.value)] else [];
    if frame.id.Some? {
      FieldIs("id", frame.id.value);
      LineAdds([], "id", frame.id.value);
      assert [] + [FieldLine("id", frame.id.value)] == [FieldLine("id", frame.id.value)];
    }
    FieldIs("event", frame.event);
    LineAdds(id, "event", frame.event);
    DataLinesAdd(id + [FieldLine("event", frame.event)], SplitFeeds(frame.data));
    JoinedAgain(frame.data);
    assert DataOf(LinesOf(Event(frame))) == SplitFeeds(frame.data);
  }

  lemma Nothing()
    ensures DataOf([]) == [] && EventOf([]) == "" && IdOf([]) == None
  {
  }

  lemma CommentSaysNothing(text: string)
    ensures FrameOf(LinesOf(Comment(text))) == [] && LinesOf(Comment(text))[0].text != ""
  {
    hide FieldLine, Field, Value;
    FieldIs("", text);
    var block := [FieldLine("", text)];
    Nothing();
    assert block[..0] == [];
  }

  // ----- the round trip -----

  lemma {:induction false} LinesMeanItems(items: seq<Item>, max: nat)
    requires AllSendable(items, max)
    ensures ParseLines([], AllLines(items), max) == Ok(Parsed([], FramesOf(items)))
    decreases |items|
  {
    hide LinesOf, SizeOf, FrameOf, Sendable;
    if items != [] {
      var lines, rest := LinesOf(items[0]), AllLines(items[1..]);
      LinesMeanItems(items[1..], max);
      ItemIsItsFrame(items[0]);
      assert [] + lines == lines;
      BlockCloses([], lines, rest, max);
    }
  }

  lemma ItemIsItsFrame(item: Item)
    requires Sendable(item)
    ensures FrameOf(LinesOf(item)) == (match item case Event(frame) => [frame] case Comment(_) => [])
    ensures forall i | 0 <= i < |LinesOf(item)| :: LinesOf(item)[i].text != ""
  {
    hide FrameOf;
    match item
    case Event(frame) => EventIsItsFrame(frame);
    case Comment(text) => CommentSaysNothing(text);
  }

  // Whatever frames and comments the server writes, and however the text is cut on its way, the
  // client's parser answers exactly these frames.
  lemma WrittenIsRead(items: seq<Item>, chunks: seq<string>, max: nat)
    requires AllSendable(items, max) && Concat(chunks) == Unsplit(AllLines(items))
    ensures var r := ParseChunks(FRESH, chunks, max);
            r.Ok? && r.value.frames == FramesOf(items)
  {
    hide IsSplit, SplitLines, ParseLines, PlainLines, Unsplit, AllLines, ParseChunks, AllSendable;
    var lines := AllLines(items);
    AllArePlain(items, max);
    PlainLinesSplit(lines);
    SplitLinesSplits(Unsplit(lines));
    SplitIsUnique(Unsplit(lines), lines, "", SplitLines(Unsplit(lines)).0, SplitLines(Unsplit(lines)).1);
    LinesMeanItems(items, max);
    ParserMeansText(chunks, max);
  }
}
