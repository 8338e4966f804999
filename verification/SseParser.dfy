/**
 * The client's incremental event-stream parser, on characters that are one to four bytes wide.
 * Lines follow section 9.2.6 of the WHATWG HTML Living Standard; unlike the standard, an id
 * belongs to one frame only and a truncated tail is an error.
 */
module SseParser {
  import opened Domain

  datatype SseFrame = SseFrame(event: string, data: string, id: Option<string>)

  datatype ParseError = FrameTooLarge | TruncatedFrame | AlreadyFinished

  function Width(c: char): nat {
    if c as int < 0x80 then 1 else if c as int < 0x800 then 2 else if c as int < 0x1_0000 then 3 else 4
  }

  function Bytes(s: string): nat {
    if s == [] then 0 else Bytes(s[..|s| - 1]) + Width(s[|s| - 1])
  }

  lemma {:induction false} BytesAdd(a: string, b: string)
    ensures Bytes(a + b) == Bytes(a) + Bytes(b)
  {
    if b == [] {
      assert a + b == a;
    } else {
      assert (a + b)[..|a + b| - 1] == a + b[..|b| - 1];
      BytesAdd(a, b[..|b| - 1]);
    }
  }

  // ----- the parser's state and its steps -----

  datatype State = State(
    pending: string,
    dataLines: seq<string>,
    eventName: string,
    eventId: Option<string>,
    frameBytes: nat)

  const FRESH := State("", [], "", None, 0)

  predicate IsEnding(c: char) {
    c == '\r' || c == '\n'
  }

  function FirstEnding(s: string): (i: nat)
    ensures i <= |s| && (forall j | 0 <= j < i :: !IsEnding(s[j])) && (i < |s| ==> IsEnding(s[i]))
  {
    if s == [] || IsEnding(s[0]) then 0 else 1 + FirstEnding(s[1..])
  }

  method FindLineEnding(value: string) returns (index: Option<nat>)
    ensures index == if FirstEnding(value) < |value| then Some(FirstEnding(value)) else None
  {
    for i := 0 to |value|
      invariant forall j | 0 <= j < i :: !IsEnding(value[j])
    {
      if value[i] == '\r' || value[i] == '\n' { return Some(i); }
    }
    index := None;
  }

  // Whether a whole line is there; a carriage return at the very end may be half of a pair.
  predicate HasLine(s: string, finishing: bool) {
    var i := FirstEnding(s);
    i < |s| && (s[i] == '\n' || i + 1 < |s| || finishing)
  }

  function EndingLength(s: string): (n: nat)
    requires FirstEnding(s) < |s|
    ensures 1 <= n && FirstEnding(s) + n <= |s|
  {
    var i := FirstEnding(s);
    if s[i] == '\r' && i + 1 < |s| && s[i + 1] == '\n' then 2 else 1
  }

  function IndexOf(s: string, c: char): (i: nat)
    ensures i <= |s| && (forall j | 0 <= j < i :: s[j] != c) && (i < |s| ==> s[i] == c)
  {
    if s == [] || s[0] == c then 0 else 1 + IndexOf(s[1..], c)
  }

  function Field(line: string): string {
    line[..IndexOf(line, ':')]
  }

  function Value(line: string): string {
    var colon := IndexOf(line, ':');
    if colon == |line| then ""
    else if colon + 1 < |line| && line[colon + 1] == ' ' then line[colon + 2..]
    else line[colon + 1..]
  }

  function Join(lines: seq<string>): string {
    if lines == [] then "" else if |lines| == 1 then lines[0] else Join(lines[..|lines| - 1]) + "\n" + lines[|lines| - 1]
  }

  function MakeFrame(state: State): SseFrame {
    SseFrame(if state.eventName == "" then "message" else state.eventName, Join(state.dataLines), state.eventId)
  }

  predicate IsClean(state: State) {
    state.dataLines == [] && state.eventName == "" && state.eventId.None?
  }

  // `#consumeLine`
  function ConsumeLine(state: State, line: string): (State, seq<SseFrame>) {
    if line == "" then
      (State(state.pending, [], "", None, 0), if state.dataLines == [] then [] else [MakeFrame(state)])
    else if line[0] == ':' then
      (if IsClean(state) then state.(frameBytes := 0) else state, [])
    else if Field(line) == "data" then (state.(dataLines := state.dataLines + [Value(line)]), [])
    else if Field(line) == "event" then (state.(eventName := Value(line)), [])
    else if Field(line) == "id" && '\0' !in Value(line) then (state.(eventId := Some(Value(line))), [])
    else (state, [])
  }

  // The line at the head of `pending`, taken off and counted but not yet consumed.
  function TakeLine(state: State): State
    requires FirstEnding(state.pending) < |state.pending|
  {
    var i, n := FirstEnding(state.pending), EndingLength(state.pending);
    state.(pending := state.pending[i + n..], frameBytes := state.frameBytes + Bytes(state.pending[..i]) + n)
  }

  function HeadLine(state: State): string {
    state.pending[..FirstEnding(state.pending)]
  }

  datatype Drained = Drained(state: State, frames: seq<SseFrame>)

  // `#drainLines`
  function Drain(state: State, finishing: bool, max: nat): Result<Drained, ParseError>
    decreases |state.pending|
  {
    if !HasLine(state.pending, finishing) then Ok(Drained(state, []))
    else
      var taken := TakeLine(state);
      if taken.frameBytes > max then Err(FrameTooLarge)
      else
        var (next, frame) := ConsumeLine(taken, HeadLine(state));
        Prepend(frame, Drain(next, finishing, max))
  }

  function Prepend(frames: seq<SseFrame>, rest: Result<Drained, ParseError>): Result<Drained, ParseError> {
    match rest case Ok(d) => Ok(Drained(d.state, frames + d.frames)) case Err(e) => Err(e)
  }

  predicate Oversized(state: State, max: nat) {
    state.frameBytes + Bytes(state.pending) > max
  }

  function Feed(state: State, chunk: string): State {
    state.(pending := state.pending + chunk)
  }

  function Sized(drained: Result<Drained, ParseError>, max: nat): Result<Drained, ParseError> {
    if drained.Ok? && Oversized(drained.value.state, max) then Err(FrameTooLarge) else drained
  }

  function Push(state: State, chunk: string, max: nat): Result<Drained, ParseError> {
    Sized(Drain(Feed(state, chunk), false, max), max)
  }

  function Finish(state: State, max: nat): Result<Drained, ParseError> {
    match Sized(Drain(state, true, max), max)
    case Err(e) => Err(e)
    case Ok(d) =>
      if d.state.pending != "" || d.state.frameBytes > 0 || !IsClean(d.state) then Err(TruncatedFrame) else Ok(d)
  }

  // ----- the object -----

  class IncrementalSseParser {
    const maxFrameBytes: nat
    var pending: string
    var dataLines: seq<string>
    var eventName: string
    var eventId: Option<string>
    var frameBytes: nat
    var finished: bool

    function Contents(): State
      reads this
    {
      State(pending, dataLines, eventName, eventId, frameBytes)
    }

    constructor (maxFrameBytes: nat)
      requires maxFrameBytes > 0
      ensures Contents() == FRESH && !finished && this.maxFrameBytes == maxFrameBytes
    {
      this.maxFrameBytes := maxFrameBytes;
      pending, dataLines, eventName, eventId, frameBytes, finished := "", [], "", None, 0, false;
    }

    method Consume(line: string) returns (frame: seq<SseFrame>)
      modifies this`dataLines, this`eventName, this`eventId, this`frameBytes
      ensures (Contents(), frame) == ConsumeLine(old(Contents()), line)
      ensures TakesIn(old(Contents()), line, Contents(), frame)
    {
      ConsumeTakesIn(Contents(), line);
      frame := [];
      if line == "" {
        if dataLines != [] { frame := [MakeFrame(Contents())]; }
        dataLines, eventName, eventId, frameBytes := [], "", None, 0;
        return;
      }
      if line[0] == ':' {
        if dataLines == [] && eventName == "" && eventId.None? { frameBytes := 0; }
        return;
      }
      var field, value := Field(line), Value(line);
      if field == "data" {
        dataLines := dataLines + [value];
      } else if field == "event" {
        eventName := value;
      } else if field == "id" {
        if '\0' !in value { eventId := Some(value); }
      }
    }

    method TakeHead(index: nat) returns (line: string)
      requires index == FirstEnding(pending) < |pending|
      modifies this`pending, this`frameBytes
      ensures line == HeadLine(old(Contents())) && Contents() == TakeLine(old(Contents()))
      ensures |pending| < |old(pending)|
    {
      hide FirstEnding, Bytes;
      var separatorLength := if pending[index] == '\r' && index + 1 < |pending| && pending[index + 1] == '\n' then 2 else 1;
      line := pending[..index];
      pending := pending[index + separatorLength..];
      frameBytes := frameBytes + Bytes(line) + separatorLength;
    }

    method DrainLines(finishing: bool) returns (r: Result<seq<SseFrame>, ParseError>)
      modifies this`pending, this`dataLines, this`eventName, this`eventId, this`frameBytes
      ensures match Drain(old(Contents()), finishing, maxFrameBytes)
              case Ok(d) => r == Ok(d.frames) && Contents() == d.state
              case Err(e) => r == Err(e)
    {
      hide ConsumeLine, FirstEnding, Bytes, TakeLine, HeadLine;
      var frames := [];
      PrependNothing(Drain(Contents(), finishing, maxFrameBytes));
      while true
        invariant Drain(old(Contents()), finishing, maxFrameBytes) == Prepend(frames, Drain(Contents(), finishing, maxFrameBytes))
        decreases |pending|
      {
        var lineEnding := FindLineEnding(pending);
        if lineEnding.None? { break; }
        var index := lineEnding.value;
        if pending[index] == '\r' && index == |pending| - 1 && !finishing { break; }
        var line := TakeHead(index);
        if frameBytes > maxFrameBytes { return Err(FrameTooLarge); }
        var frame := Consume(line);
        PrependTwice(frames, frame, Drain(Contents(), finishing, maxFrameBytes));
        frames := frames + frame;
      }
      assert frames + [] == frames;
      r := Ok(frames);
    }

    method PushChunk(chunk: string) returns (r: Result<seq<SseFrame>, ParseError>)
      modifies this`pending, this`dataLines, this`eventName, this`eventId, this`frameBytes
      ensures finished ==> r == Err(AlreadyFinished) && Contents() == old(Contents())
      ensures !finished ==> match Push(old(Contents()), chunk, maxFrameBytes)
                            case Ok(d) => r == Ok(d.frames) && Contents() == d.state
                            case Err(e) => r == Err(e)
      ensures r.Ok? ==> frameBytes + Bytes(pending) <= maxFrameBytes
    {
      if finished { return Err(AlreadyFinished); }
      pending := pending + chunk;
      r := DrainLines(false);
      if r.Ok? && frameBytes + Bytes(pending) > maxFrameBytes { r := Err(FrameTooLarge); }
    }

    method FinishStream() returns (r: Result<seq<SseFrame>, ParseError>)
      modifies this
      ensures finished
      ensures old(finished) ==> r == Ok([]) && Contents() == old(Contents())
      ensures !old(finished) ==> match Finish(old(Contents()), maxFrameBytes)
                                 case Ok(d) => r == Ok(d.frames) && Contents() == d.state
                                 case Err(e) => r == Err(e)
    {
      if finished { return Ok([]); }
      finished := true;
      r := DrainLines(true);
      if r.Err? { return; }
      if frameBytes + Bytes(pending) > maxFrameBytes { return Err(FrameTooLarge); }
      if pending != "" || frameBytes > 0 || dataLines != [] || eventName != "" || eventId.Some? { r := Err(TruncatedFrame); }
    }
  }

  lemma PrependTwice(a: seq<SseFrame>, b: seq<SseFrame>, rest: Result<Drained, ParseError>)
    ensures Prepend(a, Prepend(b, rest)) == Prepend(a + b, rest)
  {
    if rest.Ok? { assert a + (b + rest.value.frames) == (a + b) + rest.value.frames; }
  }

  lemma PrependNothing(rest: Result<Drained, ParseError>)
    ensures Prepend([], rest) == rest
  {
    if rest.Ok? { assert [] + rest.value.frames == rest.value.frames; }
  }

  // ----- chunks do not matter -----

  lemma FirstEndingIn(a: string, b: string)
    ensures FirstEnding(a) < |a| ==> FirstEnding(a + b) == FirstEnding(a)
    ensures FirstEnding(a) == |a| ==> FirstEnding(a + b) >= |a|
  {
    var i, j := FirstEnding(a), FirstEnding(a + b);
    assert i < |a| ==> (a + b)[i] == a[i];
    assert forall k | 0 <= k < i :: (a + b)[k] == a[k];
  }

  // A line that is complete stays the head line whatever follows.
  lemma TakenAlike(state: State, more: string, finishing: bool)
    requires HasLine(state.pending, false)
    ensures HasLine(Feed(state, more).pending, finishing) && HeadLine(Feed(state, more)) == HeadLine(state)
    ensures TakeLine(Feed(state, more)) == Feed(TakeLine(state), more)
  {
    hide FirstEnding, Bytes;
    EndingAlike(state.pending, more, finishing);
    var i := FirstEnding(state.pending);
    PartsAlike(state.pending, more, i, i + EndingLength(state.pending));
  }

  lemma EndingAlike(pending: string, more: string, finishing: bool)
    requires HasLine(pending, false)
    ensures FirstEnding(pending + more) == FirstEnding(pending) < |pending|
    ensures HasLine(pending + more, finishing) && EndingLength(pending + more) == EndingLength(pending)
  {
    hide FirstEnding;
    FirstEndingIn(pending, more);
    var i := FirstEnding(pending);
    assert (pending + more)[i] == pending[i];
    assert i + 1 < |pending| ==> (pending + more)[i + 1] == pending[i + 1];
  }

  lemma PartsAlike(s: string, more: string, i: nat, k: nat)
    requires i <= |s| && k <= |s|
    ensures (s + more)[..i] == s[..i] && (s + more)[k..] == s[k..] + more
  {
  }

  lemma ConsumedAlike(state: State, line: string, more: string)
    ensures ConsumeLine(Feed(state, more), line) == (Feed(ConsumeLine(state, line).0, more), ConsumeLine(state, line).1)
    ensures ConsumeLine(state, line).0.pending == state.pending
  {
  }

  // Draining first and reading on later is the same as reading on first.
  lemma {:induction false} DrainAppend(state: State, more: string, finishing: bool, max: nat)
    ensures match Drain(state, false, max)
            case Err(e) => Drain(Feed(state, more), finishing, max) == Err(e)
            case Ok(d) => Drain(Feed(state, more), finishing, max) == Prepend(d.frames, Drain(Feed(d.state, more), finishing, max))
                          && !HasLine(d.state.pending, false)
    decreases |state.pending|
  {
    hide ConsumeLine, FirstEnding, Bytes, HasLine;
    if HasLine(state.pending, false) {
      TakenAlike(state, more, finishing);
      var taken, line := TakeLine(state), HeadLine(state);
      if taken.frameBytes <= max {
        ConsumedAlike(taken, line, more);
        var next := ConsumeLine(taken, line).0;
        DrainAppend(next, more, finishing, max);
        var rest := Drain(next, false, max);
        if rest.Ok? {
          PrependTwice(ConsumeLine(taken, line).1, rest.value.frames, Drain(Feed(rest.value.state, more), finishing, max));
        }
      }
    } else {
      PrependNothing(Drain(Feed(state, more), finishing, max));
    }
  }

  // Whatever was pending lies inside the line that is taken next.
  lemma LineCovers(pending: string, more: string, finishing: bool)
    requires !HasLine(pending, false) && HasLine(pending + more, finishing)
    ensures var i := FirstEnding(pending + more);
            Bytes((pending + more)[..i]) + EndingLength(pending + more) >= Bytes(pending)
  {
    hide Bytes;
    var fed := pending + more;
    var i := FirstEnding(fed);
    FirstEndingIn(pending, more);
    if FirstEnding(pending) == |pending| {
      assert fed[..i] == pending + fed[|pending|..i];
      BytesAdd(pending, fed[|pending|..i]);
    } else {
      assert fed[..i] == pending[..i] && pending == pending[..i] + [pending[i]];
      BytesAdd(pending[..i], [pending[i]]);
      OneByte(pending[i]);
    }
  }

  lemma OneByte(c: char)
    requires IsEnding(c)
    ensures Bytes([c]) == 1
  {
    assert [c][..0] == [];
  }

  // A parser that already holds too much cannot recover, whatever comes next.
  lemma OversizedStays(state: State, more: string, finishing: bool, max: nat)
    requires !HasLine(state.pending, false) && Oversized(state, max)
    ensures Sized(Drain(Feed(state, more), finishing, max), max) == Err(FrameTooLarge)
  {
    hide HasLine, Bytes, FirstEnding, EndingLength, ConsumeLine;
    var fed := Feed(state, more);
    BytesAdd(state.pending, more);
    if HasLine(fed.pending, finishing) {
      LineCovers(state.pending, more, finishing);
      HasHead(fed.pending, finishing);
      assert TakeLine(fed).frameBytes > max;
    }
  }

  lemma HasHead(s: string, finishing: bool)
    requires HasLine(s, finishing)
    ensures FirstEnding(s) < |s|
  {
  }

  function Concat(chunks: seq<string>): string {
    if chunks == [] then "" else chunks[0] + Concat(chunks[1..])
  }

  // All pushes and the finish, as one stream of frames or the error that stopped it.
  function ParseChunks(state: State, chunks: seq<string>, max: nat): Result<Drained, ParseError>
    decreases |chunks|
  {
    if chunks == [] then Finish(state, max)
    else
      match Push(state, chunks[0], max)
      case Err(e) => Err(e)
      case Ok(d) => Prepend(d.frames, ParseChunks(d.state, chunks[1..], max))
  }

  // Any split of the text into chunks gives the frames, or the error, of the whole text.
  lemma {:induction false} ChunksDoNotMatter(state: State, chunks: seq<string>, max: nat)
    ensures ParseChunks(state, chunks, max) == Finish(Feed(state, Concat(chunks)), max)
    decreases |chunks|
  {
    hide HasLine, ConsumeLine, Bytes, FirstEnding, Drain, Finish, Push;
    if chunks == [] {
      assert Feed(state, "") == state;
    } else {
      var first := Push(state, chunks[0], max);
      var rest := Concat(chunks[1..]);
      assert Feed(Feed(state, chunks[0]), rest) == Feed(state, chunks[0] + rest);
      PushThenFinish(state, chunks[0], rest, max);
      if first.Ok? { ChunksDoNotMatter(first.value.state, chunks[1..], max); }
    }
  }

  lemma PushThenFinish(state: State, chunk: string, rest: string, max: nat)
    ensures match Push(state, chunk, max)
            case Err(e) => Finish(Feed(Feed(state, chunk), rest), max) == Err(e)
            case Ok(d) => Finish(Feed(Feed(state, chunk), rest), max) == Prepend(d.frames, Finish(Feed(d.state, rest), max))
  {
    hide HasLine, ConsumeLine, Bytes, FirstEnding, Drain;
    DrainAppend(Feed(state, chunk), rest, true, max);
    var first := Drain(Feed(state, chunk), false, max);
    if first.Ok? && Oversized(first.value.state, max) { OversizedStays(first.value.state, rest, true, max); }
  }

  // ----- the whole text -----

  datatype Ending = Cr | Lf | CrLf {
    function Text(): string {
      match this case Cr => ['\r'] case Lf => ['\n'] case CrLf => ['\r', '\n']
    }
  }

  datatype Line = Line(text: string, end: Ending) {
    function Size(): nat {
      Bytes(text) + |end.Text()|
    }
  }

  function Unsplit(lines: seq<Line>): string {
    if lines == [] then "" else lines[0].text + (lines[0].end.Text() + Unsplit(lines[1..]))
  }

  predicate NoEnding(s: string) {
    forall i | 0 <= i < |s| :: !IsEnding(s[i])
  }

  predicate StartsWithLineFeed(s: string) {
    s != "" && s[0] == '\n'
  }

  // `text` is the lines and a rest; a carriage return counts alone only if no line feed follows.
  ghost predicate IsSplit(text: string, lines: seq<Line>, rest: string)
    decreases |lines|
  {
    if lines == [] then text == rest && NoEnding(rest)
    else
      && NoEnding(lines[0].text)
      && exists tail :: IsSplit(tail, lines[1..], rest) && StartsWith(text, lines[0], tail)
  }

  ghost predicate StartsWith(text: string, line: Line, tail: string) {
    text == line.text + (line.end.Text() + tail) && (line.end == Cr ==> !StartsWithLineFeed(tail))
  }

  function EndingAt(text: string): Ending
    requires FirstEnding(text) < |text|
  {
    if EndingLength(text) == 2 then CrLf else if text[FirstEnding(text)] == '\r' then Cr else Lf
  }

  function SplitLines(text: string): (seq<Line>, string)
    decreases |text|
  {
    var i := FirstEnding(text);
    if i == |text| then ([], text)
    else
      var (lines, rest) := SplitLines(text[i + EndingLength(text)..]);
      ([Line(text[..i], EndingAt(text))] + lines, rest)
  }

  lemma TakesPair(text: string, i: nat)
    requires i + 1 < |text| && text[i] == '\r' && text[i + 1] == '\n'
    ensures StartsWith(text, Line(text[..i], CrLf), text[i + 2..])
  {
    assert text == text[..i] + text[i..];
    assert text[i..] == ['\r', '\n'] + text[i + 2..];
  }

  lemma TakesOne(text: string, i: nat)
    requires i < |text| && IsEnding(text[i]) && !(text[i] == '\r' && i + 1 < |text| && text[i + 1] == '\n')
    ensures StartsWith(text, Line(text[..i], if text[i] == '\r' then Cr else Lf), text[i + 1..])
  {
    assert text == text[..i] + text[i..];
    assert text[i..] == [text[i]] + text[i + 1..];
  }

  lemma HeadLineIsLine(text: string)
    requires FirstEnding(text) < |text|
    ensures var i := FirstEnding(text);
            NoEnding(text[..i]) && StartsWith(text, Line(text[..i], EndingAt(text)), text[i + EndingLength(text)..])
  {
    hide StartsWith, FirstEnding, EndingLength, NoEnding;
    var i := FirstEnding(text);
    BeforeEnding(text);
    EndingLengths(text);
    TakesEnding(text, i, EndingLength(text));
  }

  lemma TakesEnding(text: string, i: nat, n: nat)
    requires i < |text| && IsEnding(text[i])
    requires n == if text[i] == '\r' && i + 1 < |text| && text[i + 1] == '\n' then 2 else 1
    ensures StartsWith(text, Line(text[..i], if n == 2 then CrLf else if text[i] == '\r' then Cr else Lf), text[i + n..])
  {
    hide StartsWith;
    if n == 2 { TakesPair(text, i); } else { TakesOne(text, i); }
  }

  lemma BeforeEnding(text: string)
    ensures NoEnding(text[..FirstEnding(text)])
  {
    hide FirstEnding;
  }

  lemma EndingLengths(text: string)
    requires FirstEnding(text) < |text|
    ensures var i := FirstEnding(text);
            && (EndingLength(text) == 2 || EndingLength(text) == 1)
            && (EndingLength(text) == 2 <==> text[i] == '\r' && i + 1 < |text| && text[i + 1] == '\n')
  {
    hide FirstEnding;
  }

  lemma {:induction false} SplitLinesSplits(text: string)
    ensures IsSplit(text, SplitLines(text).0, SplitLines(text).1)
    decreases |text|
  {
    hide FirstEnding, EndingLength, EndingAt, StartsWith, NoEnding;
    if FirstEnding(text) < |text| {
      var tail := text[FirstEnding(text) + EndingLength(text)..];
      SplitLinesSplits(tail);
      HeadLineIsLine(text);
      var line := Line(text[..FirstEnding(text)], EndingAt(text));
      assert ([line] + SplitLines(tail).0)[1..] == SplitLines(tail).0;
    } else {
      NoneIsNoEnding(text);
    }
  }

  lemma NoneIsNoEnding(text: string)
    ensures FirstEnding(text) == |text| <==> NoEnding(text)
  {
  }

  lemma {:induction false} SplitsRejoin(text: string, lines: seq<Line>, rest: string)
    requires IsSplit(text, lines, rest)
    ensures Unsplit(lines) + rest == text
    decreases |lines|
  {
    hide NoEnding, StartsWithLineFeed;
    if lines == [] {
      assert "" + rest == rest;
    } else {
      var tail :| IsSplit(tail, lines[1..], rest) && StartsWith(text, lines[0], tail);
      SplitsRejoin(tail, lines[1..], rest);
      var end := lines[0].end.Text();
      assert lines[0].text + (end + Unsplit(lines[1..])) + rest == lines[0].text + (end + (Unsplit(lines[1..]) + rest));
    }
  }

  // A line at the head of a text is what the parser's loop takes next.
  lemma HeadIsTaken(text: string, line: Line, tail: string)
    requires NoEnding(line.text) && StartsWith(text, line, tail)
    ensures FirstEnding(text) == |line.text| < |text| && EndingLength(text) == |line.end.Text()| && EndingAt(text) == line.end
    ensures text[..|line.text|] == line.text && text[|line.text| + |line.end.Text()|..] == tail
  {
    var i := |line.text|;
    var end := line.end.Text();
    SplitsAt(line.text, end, tail);
    assert text[i] == end[0];
    hide StartsWith;
    assert forall j | 0 <= j < i :: text[j] == line.text[j] && !IsEnding(line.text[j]);
    assert IsEnding(text[i]) && FirstEnding(text) == i;
  }

  lemma SplitsAt(a: string, b: string, c: string)
    ensures (a + (b + c))[..|a|] == a && (a + (b + c))[|a| + |b|..] == c
    ensures b != [] ==> (a + (b + c))[|a|] == b[0]
    ensures |b| == 2 ==> (a + (b + c))[|a| + 1] == b[1]
    ensures |b| == 1 && c != [] ==> (a + (b + c))[|a| + 1] == c[0]
  {
  }

  lemma SplitHead(text: string, lines: seq<Line>, rest: string)
    requires IsSplit(text, lines, rest)
    ensures lines == [] ==> FirstEnding(text) == |text| && text == rest
    ensures lines != [] ==>
              && FirstEnding(text) == |lines[0].text| < |text| && EndingLength(text) == |lines[0].end.Text()|
              && EndingAt(text) == lines[0].end && text[..|lines[0].text|] == lines[0].text
              && IsSplit(text[|lines[0].text| + |lines[0].end.Text()|..], lines[1..], rest)
  {
    hide NoEnding, StartsWith, FirstEnding, EndingLength, EndingAt;
    if lines == [] {
      NoneIsNoEnding(text);
    } else {
      var tail :| IsSplit(tail, lines[1..], rest) && StartsWith(text, lines[0], tail);
      HeadIsTaken(text, lines[0], tail);
    }
  }

  lemma {:induction false} SplitIsUnique(text: string, a: seq<Line>, restA: string, b: seq<Line>, restB: string)
    requires IsSplit(text, a, restA) && IsSplit(text, b, restB)
    ensures a == b && restA == restB
    decreases |a|
  {
    hide IsSplit, FirstEnding, EndingLength, EndingAt;
    SplitHead(text, a, restA);
    SplitHead(text, b, restB);
    if a != [] {
      SplitIsUnique(text[|a[0].text| + |a[0].end.Text()|..], a[1..], restA, b[1..], restB);
      assert a == [a[0]] + a[1..] && b == [b[0]] + b[1..];
    }
  }

  // ----- blocks: what the lines between two blank lines mean -----

  predicate IsComment(line: string) {
    line != "" && line[0] == ':'
  }

  predicate HasField(line: string, field: string) {
    line != "" && !IsComment(line) && Field(line) == field
  }

  function DataOf(block: seq<Line>): seq<string> {
    if block == [] then []
    else
      var last := block[|block| - 1].text;
      DataOf(block[..|block| - 1]) + if HasField(last, "data") then [Value(last)] else []
  }

  // The last event name counts, and the last id without a NUL.
  function EventOf(block: seq<Line>): string {
    if block == [] then ""
    else
      var last := block[|block| - 1].text;
      if HasField(last, "event") then Value(last) else EventOf(block[..|block| - 1])
  }

  function IdOf(block: seq<Line>): Option<string> {
    if block == [] then None
    else
      var last := block[|block| - 1].text;
      if HasField(last, "id") && '\0' !in Value(last) then Some(Value(last)) else IdOf(block[..|block| - 1])
  }

  predicate SaysNothing(block: seq<Line>) {
    DataOf(block) == [] && EventOf(block) == "" && IdOf(block).None?
  }

  // The bytes charged to a block; a comment before anything was said makes it free again.
  function Charge(block: seq<Line>): nat {
    if block == [] then 0
    else
      var front, last := block[..|block| - 1], block[|block| - 1];
      if IsComment(last.text) && SaysNothing(front) then 0
      else Charge(front) + last.Size()
  }

  function FrameOf(block: seq<Line>): seq<SseFrame> {
    if DataOf(block) == [] then []
    else [SseFrame(if EventOf(block) == "" then "message" else EventOf(block), Join(DataOf(block)), IdOf(block))]
  }

  datatype Parsed = Parsed(tail: seq<Line>, frames: seq<SseFrame>)

  // Blank lines close blocks; the tail is the block that was not closed.
  function ParseLines(block: seq<Line>, lines: seq<Line>, max: nat): Result<Parsed, ParseError>
    decreases |lines|
  {
    if lines == [] then Ok(Parsed(block, []))
    else if Charge(block) + lines[0].Size() > max then Err(FrameTooLarge)
    else if lines[0].text == "" then
      (match ParseLines([], lines[1..], max)
       case Ok(p) => Ok(Parsed(p.tail, FrameOf(block) + p.frames))
       case Err(e) => Err(e))
    else ParseLines(block + [lines[0]], lines[1..], max)
  }

  // The meaning of a whole stream: no rest, nothing said in the tail, and the tail was free.
  function ParseText(text: string, max: nat): Result<seq<SseFrame>, ParseError> {
    var (lines, rest) := SplitLines(text);
    match ParseLines([], lines, max)
    case Err(e) => Err(e)
    case Ok(p) =>
      if Charge(p.tail) + Bytes(rest) > max then Err(FrameTooLarge)
      else if rest != "" || Charge(p.tail) > 0 || !SaysNothing(p.tail) then Err(TruncatedFrame)
      else Ok(p.frames)
  }

  function StateOf(block: seq<Line>, pending: string): State {
    State(pending, DataOf(block), EventOf(block), IdOf(block), Charge(block))
  }

  // The parser holds `block` and has counted the next line but not consumed it.
  function Taken(block: seq<Line>, line: Line, pending: string): State {
    StateOf(block, pending).(frameBytes := Charge(block) + line.Size())
  }

  // Consuming a line adds it to the block, and a blank line closes the block.
  lemma ConsumeMeans(block: seq<Line>, line: Line, pending: string)
    ensures var taken := Taken(block, line, pending);
            && (line.text == "" ==> ConsumeLine(taken, "") == (StateOf([], pending), FrameOf(block)))
            && (line.text != "" ==> ConsumeLine(taken, line.text) == (StateOf(block + [line], pending), []))
  {
    var more := block + [line];
    assert more[..|block|] == block;
    assert DataOf(block) + [] == DataOf(block);
  }

  function Tail(text: string, line: Line): string {
    if |line.text| + |line.end.Text()| <= |text| then text[|line.text| + |line.end.Text()|..] else ""
  }

  lemma TakeMeans(block: seq<Line>, text: string, lines: seq<Line>, rest: string)
    requires IsSplit(text, lines, rest) && lines != []
    ensures HasLine(text, true) && HeadLine(StateOf(block, text)) == lines[0].text && IsSplit(Tail(text, lines[0]), lines[1..], rest)
    ensures TakeLine(StateOf(block, text))
         == Taken(block, lines[0], Tail(text, lines[0]))
  {
    hide FirstEnding, EndingLength, IsSplit, Bytes, Charge, DataOf, EventOf, IdOf;
    SplitHead(text, lines, rest);
    HasHeadLine(text, |lines[0].text|);
  }

  lemma HasHeadLine(text: string, i: nat)
    requires FirstEnding(text) == i < |text|
    ensures HasLine(text, true)
  {
  }

  // A parser that holds a block and takes a blank line answers the block's frame and starts
  // over; any other line becomes the last line of the block.
  ghost predicate TakesIn(before: State, line: string, after: State, frame: seq<SseFrame>) {
    forall block, end :: AddsTo(before, block, Line(line, end), after, frame)
  }

  ghost predicate AddsTo(before: State, block: seq<Line>, line: Line, after: State, frame: seq<SseFrame>) {
    before == Taken(block, line, before.pending) ==>
      if line.text == "" then after == FRESH.(pending := before.pending) && frame == FrameOf(block)
      else after == StateOf(block + [line], before.pending) && frame == []
  }

  lemma ConsumeTakesIn(state: State, line: string)
    ensures TakesIn(state, line, ConsumeLine(state, line).0, ConsumeLine(state, line).1)
  {
    hide ConsumeLine;
    var (after, frame) := ConsumeLine(state, line);
    forall block, end ensures AddsTo(state, block, Line(line, end), after, frame) {
      ConsumeMeans(block, Line(line, end), state.pending);
    }
  }

  lemma {:induction false} DrainMeans(block: seq<Line>, text: string, lines: seq<Line>, rest: string, max: nat)
    requires IsSplit(text, lines, rest)
    ensures Drain(StateOf(block, text), true, max)
         == match ParseLines(block, lines, max)
            case Ok(p) => Ok(Drained(StateOf(p.tail, rest), p.frames))
            case Err(e) => Err(e)
    decreases |lines|
  {
    hide IsSplit, ConsumeLine, FirstEnding, EndingLength, Bytes, HasLine, HeadLine, TakeLine, Tail, FrameOf;
    hide DataOf, EventOf, IdOf, Charge;
    if lines == [] {
      NoLines(text, rest);
    } else {
      var line, tail := lines[0], Tail(text, lines[0]);
      TakeMeans(block, text, lines, rest);
      ConsumeMeans(block, line, tail);
      if line.text == "" {
        DrainMeans([], tail, lines[1..], rest, max);
      } else {
        DrainMeans(block + [line], tail, lines[1..], rest, max);
        PrependNothing(Drain(StateOf(block + [line], tail), true, max));
      }
    }
  }

  lemma NoLines(text: string, rest: string)
    requires IsSplit(text, [], rest)
    ensures text == rest && !HasLine(text, true)
  {
    NoneIsNoEnding(text);
  }

  // Pushing any chunks of a text and finishing is reading the whole text block by block.
  lemma ParserMeansText(chunks: seq<string>, max: nat)
    ensures match ParseChunks(FRESH, chunks, max)
            case Ok(d) => ParseText(Concat(chunks), max) == Ok(d.frames)
            case Err(e) => ParseText(Concat(chunks), max) == Err(e)
  {
    hide IsSplit, SplitLines, ParseLines, Drain, Bytes, SaysNothing;
    var text := Concat(chunks);
    ChunksDoNotMatter(FRESH, chunks, max);
    SplitLinesSplits(text);
    EmptyBlock(text);
    DrainMeans([], text, SplitLines(text).0, SplitLines(text).1, max);
    var parsed := ParseLines([], SplitLines(text).0, max);
    if parsed.Ok? { CleanMeans(parsed.value.tail, SplitLines(text).1); }
  }

  lemma EmptyBlock(text: string)
    ensures Feed(FRESH, text) == StateOf([], text)
  {
    assert "" + text == text;
  }

  lemma CleanMeans(tail: seq<Line>, rest: string)
    ensures IsClean(StateOf(tail, rest)) <==> SaysNothing(tail)
  {
  }
}
