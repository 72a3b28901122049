/** The SSE formatter and the incremental parser (src/sse_utils.ts). A stream is a list of
    decoded chunks; the specification is a fold over the lines the code recognises. */
module Sse {
  import opened Base

  const LF: CodeUnit := 10
  const CR: CodeUnit := 13
  const SPACE: CodeUnit := 32
  const MESSAGE_TYPE := Lit("message")
  const ERROR_TYPE := Lit("error")
  const EVENT_FIELD := Lit("event:")
  const DATA_FIELD := Lit("data:")

  datatype SseEvent = SseEvent(eventType: Text, data: Text)

  datatype SizeError = LineTooLong | DataTooLong

  /** What `parseSseStream` holds between lines, with the events it has yielded. */
  datatype Parser = Parser(eventType: Text, eventData: Text, yielded: seq<SseEvent>)

  datatype Fed = Fed(state: Parser, buffer: Text) | Failed(error: SizeError, yielded: seq<SseEvent>)

  datatype Outcome = Outcome(events: seq<SseEvent>, error: Option<SizeError>)

  const INITIAL := Parser(MESSAGE_TYPE, [], [])

  function StripOptionalLeadingSpace(value: Text): Text {
    if value != [] && value[0] == SPACE then value[1..] else value
  }

  function StripCr(line: Text): Text {
    if line != [] && line[|line| - 1] == CR then line[..|line| - 1] else line
  }

  /** `text.indexOf('\n')`, or -1. */
  function IndexOfLf(text: Text): (i: int)
    ensures -1 <= i < |text|
    ensures i >= 0 ==> text[i] == LF && LF !in text[..i]
    ensures i < 0 ==> LF !in text
  {
    if text == [] then -1
    else if text[0] == LF then 0
    else
      var i := IndexOfLf(text[1..]);
      assert text == [text[0]] + text[1..];
      if i < 0 then -1 else assert text[..i + 1] == [text[0]] + text[1..][..i]; i + 1
  }

  /** One complete line, its CR already stripped. */
  function Line(p: Parser, line: Text, max: int): Result<Parser, SizeError> {
    if line == [] then
      if p.eventData != [] then Ok(Parser(MESSAGE_TYPE, [], p.yielded + [SseEvent(p.eventType, p.eventData)]))
      else Ok(p)
    else if line[0] == 58 then Ok(p)
    else if EVENT_FIELD <= line then Ok(p.(eventType := StripOptionalLeadingSpace(line[|EVENT_FIELD|..])))
    else if DATA_FIELD <= line then
      var value := StripOptionalLeadingSpace(line[|DATA_FIELD|..]);
      var data := if p.eventData == [] then value else p.eventData + [LF] + value;
      if |data| > max then Err(DataTooLong) else Ok(p.(eventData := data))
    else Ok(p)
  }

  /** All of `text` (the buffer and a new chunk): complete lines, then the residue's own cap. */
  function Feed(p: Parser, text: Text, max: int): Fed
    decreases |text|
  {
    var i := IndexOfLf(text);
    if i < 0 then if |text| > max then Failed(LineTooLong, p.yielded) else Fed(p, text)
    else if i > max then Failed(LineTooLong, p.yielded)
    else match Line(p, StripCr(text[..i]), max)
      case Err(e) => Failed(e, p.yielded)
      case Ok(p') => Feed(p', text[i + 1..], max)
  }

  /** One more chunk arrives. */
  function FeedMore(f: Fed, chunk: Text, max: int): Fed {
    if f.Failed? then f else Feed(f.state, f.buffer + chunk, max)
  }

  function FeedAll(f: Fed, chunks: seq<Text>, max: int): Fed
    decreases |chunks|
  {
    if chunks == [] then f else FeedAll(FeedMore(f, chunks[0], max), chunks[1..], max)
  }

  /** End of stream: a pending event is still yielded, an unterminated line is dropped. */
  function Finish(f: Fed): Outcome {
    match f
    case Failed(e, yielded) => Outcome(yielded, Some(e))
    case Fed(p, _) =>
      Outcome(if p.eventData != [] then p.yielded + [SseEvent(p.eventType, p.eventData)] else p.yielded, None)
  }

  function Parse(chunks: seq<Text>, max: int): Outcome { Finish(FeedAll(Fed(INITIAL, []), chunks, max)) }

  function Concat(chunks: seq<Text>): Text {
    if chunks == [] then [] else chunks[0] + Concat(chunks[1..])
  }

  // ---------- the parser as the source runs it ----------

  /** The field dispatch of the inner loop. */
  method HandleLine(line: Text, max: int, p: Parser)
    returns (eventType: Text, eventData: Text, events: seq<SseEvent>, tooLong: bool)
    ensures Line(p, line, max) == if tooLong then Err(DataTooLong) else Ok(Parser(eventType, eventData, events))
    ensures tooLong ==> events == p.yielded
  {
    eventType, eventData, events, tooLong := p.eventType, p.eventData, p.yielded, false;
    if line == [] {
      if eventData != [] {
        events := events + [SseEvent(eventType, eventData)];
        eventData := [];
        eventType := MESSAGE_TYPE;
      }
    } else if line[0] == 58 {
    } else if EVENT_FIELD <= line {
      eventType := StripOptionalLeadingSpace(line[|EVENT_FIELD|..]);
    } else if DATA_FIELD <= line {
      var fieldValue := StripOptionalLeadingSpace(line[|DATA_FIELD|..]);
      eventData := if eventData == [] then fieldValue else eventData + [LF] + fieldValue;
      tooLong := |eventData| > max;
    }
  }

  method ParseSseStream(chunks: seq<Text>, max: int) returns (events: seq<SseEvent>, error: Option<SizeError>)
    ensures Outcome(events, error) == Parse(chunks, max)
  {
    var buffer: Text, eventType, eventData: Text := [], MESSAGE_TYPE, [];
    events := [];
    for c := 0 to |chunks|
      invariant FeedAll(Fed(INITIAL, []), chunks, max)
             == FeedAll(Fed(Parser(eventType, eventData, events), buffer), chunks[c..], max)
    {
      ghost var before := Fed(Parser(eventType, eventData, events), buffer);
      assert chunks[c..][0] == chunks[c] && chunks[c..][1..] == chunks[c + 1..];
      buffer := buffer + chunks[c];
      ghost var whole := FeedMore(before, chunks[c], max);
      if whole.Failed? { FailedStays(whole, chunks[c + 1..], max); }
      var lineEndIndex := IndexOfLf(buffer);
      while lineEndIndex >= 0
        invariant lineEndIndex == IndexOfLf(buffer)
        invariant whole == Feed(Parser(eventType, eventData, events), buffer, max)
        decreases |buffer|
      {
        if lineEndIndex > max { return events, Some(LineTooLong); }
        var line := StripCr(buffer[..lineEndIndex]);
        buffer := buffer[lineEndIndex + 1..];
        var tooLong;
        eventType, eventData, events, tooLong := HandleLine(line, max, Parser(eventType, eventData, events));
        if tooLong { return events, Some(DataTooLong); }
        lineEndIndex := IndexOfLf(buffer);
      }
      if |buffer| > max { return events, Some(LineTooLong); }
    }
    if eventData != [] { events := events + [SseEvent(eventType, eventData)]; }
    error := None;
  }

  // ---------- chunk independence ----------

  lemma {:induction false} FailedStays(f: Fed, chunks: seq<Text>, max: int)
    requires f.Failed?
    ensures FeedAll(f, chunks, max) == f
    decreases |chunks|
  {
    if chunks != [] { FailedStays(f, chunks[1..], max); }
  }

  lemma {:induction false} FeedSplits(p: Parser, a: Text, b: Text, max: int)
    ensures Feed(p, a + b, max) == FeedMore(Feed(p, a, max), b, max)
    decreases |a|
  {
    var i := IndexOfLf(a);
    if i >= 0 {
      assert (a + b)[..i] == a[..i] && (a + b)[i + 1..] == a[i + 1..] + b;
      FirstLf(a + b, i);
      if i <= max {
        match Line(p, StripCr(a[..i]), max)
        case Ok(q) => FeedSplits(q, a[i + 1..], b, max);
        case Err(_) =>
      }
    } else {
      assert forall k | 0 <= k < |a| :: a[k] in a && (a + b)[k] == a[k];
    }
  }

  lemma FirstLf(text: Text, i: nat)
    requires i < |text| && text[i] == LF && LF !in text[..i]
    ensures IndexOfLf(text) == i
  {
    var j := IndexOfLf(text);
    assert j >= 0;
    assert forall k | 0 <= k < i :: text[k] in text[..i];
    assert forall k | 0 <= k < j :: text[k] in text[..j];
  }

  lemma FeedMoreSplits(f: Fed, a: Text, b: Text, max: int)
    ensures FeedMore(f, a + b, max) == FeedMore(FeedMore(f, a, max), b, max)
  {
    if f.Fed? {
      FeedSplits(f.state, f.buffer + a, b, max);
      assert f.buffer + a + b == f.buffer + (a + b);
    }
  }

  lemma FeedMoreIsStable(f: Fed, a: Text, max: int)
    ensures FeedMore(FeedMore(f, a, max), [], max) == FeedMore(f, a, max)
  {
    assert a + [] == a;
    FeedMoreSplits(f, a, [], max);
  }

  lemma {:induction false} FeedAllIsFeedMore(f: Fed, chunks: seq<Text>, max: int)
    requires FeedMore(f, [], max) == f
    ensures FeedAll(f, chunks, max) == FeedMore(f, Concat(chunks), max)
    decreases |chunks|
  {
    if chunks != [] {
      FeedMoreSplits(f, chunks[0], Concat(chunks[1..]), max);
      FeedMoreIsStable(f, chunks[0], max);
      FeedAllIsFeedMore(FeedMore(f, chunks[0], max), chunks[1..], max);
    }
  }

  /** What a feed leaves behind: no line end, and everything held within the cap. */
  lemma {:induction false} FeedIsStable(p: Parser, text: Text, max: int)
    requires Feed(p, text, max).Fed?
    ensures var r := Feed(p, text, max); Feed(r.state, r.buffer, max) == r && LF !in r.buffer && |r.buffer| <= max
    decreases |text|
  {
    var i := IndexOfLf(text);
    if i >= 0 { FeedIsStable(Line(p, StripCr(text[..i]), max).value, text[i + 1..], max); }
  }

  /** Two ways of cutting one text into chunks give the same events and the same outcome.
      The only exception is a negative cap, which fails on the first chunk, even an empty one. */
  lemma ChunkIndependence(a: seq<Text>, b: seq<Text>, max: int)
    requires Concat(a) == Concat(b)
    ensures Parse(a, max) == Parse(b, max) <==> max >= 0 || (a == [] <==> b == [])
  {
    ParseIsFeed(a, max);
    ParseIsFeed(b, max);
  }

  lemma ParseIsFeed(chunks: seq<Text>, max: int)
    ensures max >= 0 || chunks != [] ==>
      FeedAll(Fed(INITIAL, []), chunks, max) == Feed(INITIAL, Concat(chunks), max)
    ensures max < 0 && chunks != [] ==> Parse(chunks, max) == Outcome([], Some(LineTooLong))
  {
    var f := Fed(INITIAL, []);
    if max >= 0 {
      FeedAllIsFeedMore(f, chunks, max);
      assert [] + Concat(chunks) == Concat(chunks);
    } else if chunks != [] {
      assert [] + chunks[0] == chunks[0];
      FailedStays(FeedMore(f, chunks[0], max), chunks[1..], max);
    }
  }

  // ---------- memory bound ----------

  /** Between chunks the held event data and the line buffer stay within the cap, for any
      prefix of the stream; so the buffer never exceeds the cap plus the current chunk. */
  lemma {:induction false} HeldMemoryIsBounded(chunks: seq<Text>, n: nat, max: nat)
    requires n <= |chunks|
    ensures var f := FeedAll(Fed(INITIAL, []), chunks[..n], max);
      f.Fed? ==> |f.state.eventData| <= max && |f.buffer| <= max && LF !in f.buffer
  {
    ParseIsFeed(chunks[..n], max);
    if Feed(INITIAL, Concat(chunks[..n]), max).Fed? {
      FeedIsStable(INITIAL, Concat(chunks[..n]), max);
      DataStaysBounded(INITIAL, Concat(chunks[..n]), max);
    }
  }

  lemma {:induction false} DataStaysBounded(p: Parser, text: Text, max: nat)
    requires |p.eventData| <= max && Feed(p, text, max).Fed?
    ensures |Feed(p, text, max).state.eventData| <= max
    decreases |text|
  {
    var i := IndexOfLf(text);
    if i >= 0 { DataStaysBounded(Line(p, StripCr(text[..i]), max).value, text[i + 1..], max); }
  }

  // ---------- round trip with the formatter ----------

  datatype Frame = DataFrame(json: Text) | ErrorFrame(json: Text)

  /** `formatSSEEvent` / `formatSSEErrorEvent` around already serialised JSON. */
  function Format(f: Frame): Text {
    match f
    case DataFrame(json) => Lit("data: ") + json + [LF, LF]
    case ErrorFrame(json) => Lit("event: error") + [LF] + Lit("data: ") + json + [LF, LF]
  }

  function EventOf(f: Frame): SseEvent {
    SseEvent(if f.DataFrame? then MESSAGE_TYPE else ERROR_TYPE, f.json)
  }

  function FormatAll(frames: seq<Frame>): Text {
    if frames == [] then [] else Format(frames[0]) + FormatAll(frames[1..])
  }

  function EventsOf(frames: seq<Frame>): seq<SseEvent> {
    seq(|frames|, i requires 0 <= i < |frames| => EventOf(frames[i]))
  }

  /** What `JSON.stringify` never breaks: non-empty, no line feed, no final carriage return. */
  predicate OneLine(json: Text) { json != [] && LF !in json && json[|json| - 1] != CR }

  /** The cap is charged for the whole line, field name and space included. */
  predicate Fits(f: Frame, max: int) { |f.json| + 6 <= max && (f.ErrorFrame? ==> 12 <= max) }

  lemma LineEnds(p: Parser, line: Text, rest: Text, max: int)
    requires LF !in line
    ensures var r := Line(p, StripCr(line), max);
      Feed(p, line + [LF] + rest, max) ==
        if |line| > max then Failed(LineTooLong, p.yielded)
        else if r.Err? then Failed(r.error, p.yielded)
        else Feed(r.value, rest, max)
  {
    var text := line + [LF] + rest;
    assert text[..|line|] == line && text[|line| + 1..] == rest;
    FirstLf(text, |line|);
  }

  lemma DataLine(p: Parser, value: Text, max: int)
    requires value == [] || value[|value| - 1] != CR
    ensures StripCr(Lit("data: ") + value) == Lit("data: ") + value
    ensures p.eventData == [] ==>
      Line(p, Lit("data: ") + value, max) == if |value| > max then Err(DataTooLong) else Ok(p.(eventData := value))
    ensures p.eventData != [] ==>
      Line(p, Lit("data: ") + value, max) ==
        if |p.eventData| + 1 + |value| > max then Err(DataTooLong) else Ok(p.(eventData := p.eventData + [LF] + value))
  {
    var line := Lit("data: ") + value;
    assert line[0] == 100 && line[5] == SPACE;
    assert line[..5] == DATA_FIELD;
    assert line[5..][0] == SPACE && line[5..][1..] == value;
  }

  lemma EventLine(p: Parser, max: int)
    ensures StripCr(Lit("event: error")) == Lit("event: error") && LF !in Lit("event: error")
    ensures Line(p, Lit("event: error"), max) == Ok(p.(eventType := ERROR_TYPE))
  {
    var line := Lit("event: error");
    assert line[..6] == EVENT_FIELD;
    assert line[6..][0] == SPACE && line[6..][1..] == ERROR_TYPE;
  }

  lemma DataFrameIsParsed(p: Parser, json: Text, rest: Text, max: int)
    requires OneLine(json) && p.eventData == []
    ensures Feed(p, Lit("data: ") + json + [LF] + ([LF] + rest), max) ==
      if |json| + 6 > max then Failed(LineTooLong, p.yielded)
      else Feed(Parser(MESSAGE_TYPE, [], p.yielded + [SseEvent(p.eventType, json)]), rest, max)
  {
    var data := Lit("data: ") + json;
    assert LF !in Lit("data: ") && LF !in data;
    DataLine(p, json, max);
    LineEnds(p, data, [LF] + rest, max);
    assert [] + [LF] + rest == [LF] + rest;
    LineEnds(p.(eventData := json), [], rest, max);
  }

  /** The `data:` line, the blank line, and what follows. */
  function DataTail(json: Text, rest: Text): Text { Lit("data: ") + json + [LF] + ([LF] + rest) }

  lemma FormatShape(f: Frame, rest: Text)
    ensures Format(f) + rest ==
      if f.ErrorFrame? then Lit("event: error") + [LF] + DataTail(f.json, rest) else DataTail(f.json, rest)
  {}

  lemma ErrorFrameIsParsed(p: Parser, json: Text, rest: Text, max: int)
    requires OneLine(json) && p.eventData == []
    ensures Feed(p, Lit("event: error") + [LF] + DataTail(json, rest), max) ==
      if |json| + 6 > max || 12 > max then Failed(LineTooLong, p.yielded)
      else Feed(Parser(MESSAGE_TYPE, [], p.yielded + [SseEvent(ERROR_TYPE, json)]), rest, max)
  {
    EventLine(p, max);
    LineEnds(p, Lit("event: error"), DataTail(json, rest), max);
    DataFrameIsParsed(p.(eventType := ERROR_TYPE), json, rest, max);
  }

  lemma FrameIsParsed(y: seq<SseEvent>, f: Frame, rest: Text, max: int)
    requires OneLine(f.json)
    ensures Feed(Parser(MESSAGE_TYPE, [], y), Format(f) + rest, max) ==
      if Fits(f, max) then Feed(Parser(MESSAGE_TYPE, [], y + [EventOf(f)]), rest, max) else Failed(LineTooLong, y)
  {
    FormatShape(f, rest);
    if f.ErrorFrame? {
      ErrorFrameIsParsed(Parser(MESSAGE_TYPE, [], y), f.json, rest, max);
    } else {
      DataFrameIsParsed(Parser(MESSAGE_TYPE, [], y), f.json, rest, max);
    }
  }

  /** `fit` counts the frames before the first one over the cap. */
  predicate FitCount(frames: seq<Frame>, fit: nat, max: int) {
    && fit <= |frames|
    && (forall i | 0 <= i < fit :: Fits(frames[i], max))
    && (fit < |frames| ==> !Fits(frames[fit], max))
  }

  predicate AllOneLine(frames: seq<Frame>) { forall i | 0 <= i < |frames| :: OneLine(frames[i].json) }

  lemma EventsAfterFirst(y: seq<SseEvent>, frames: seq<Frame>, fit: nat)
    requires 0 < fit <= |frames|
    ensures y + [EventOf(frames[0])] + EventsOf(frames[1..][..fit - 1]) == y + EventsOf(frames[..fit])
  {
    assert frames[..fit][1..] == frames[1..][..fit - 1];
  }

  lemma FitCountOfRest(frames: seq<Frame>, fit: nat, max: int)
    requires FitCount(frames, fit, max) && AllOneLine(frames) && 0 < fit
    ensures FitCount(frames[1..], fit - 1, max) && AllOneLine(frames[1..])
    ensures OneLine(frames[0].json) && Fits(frames[0], max)
  {}

  /** The parser's state after the text of `frames`. */
  ghost function AfterFrames(y: seq<SseEvent>, frames: seq<Frame>, fit: nat, max: int): Fed
    requires fit <= |frames|
  {
    if fit < |frames| then Failed(LineTooLong, y + EventsOf(frames[..fit]))
    else if max < 0 then Failed(LineTooLong, y)
    else Fed(Parser(MESSAGE_TYPE, [], y + EventsOf(frames[..fit])), [])
  }

  lemma AfterFramesStep(y: seq<SseEvent>, frames: seq<Frame>, fit: nat, max: int)
    requires FitCount(frames, fit, max) && 0 < fit
    ensures AfterFrames(y + [EventOf(frames[0])], frames[1..], fit - 1, max) == AfterFrames(y, frames, fit, max)
  {
    EventsAfterFirst(y, frames, fit);
  }

  lemma {:induction false} FramesAreParsed(y: seq<SseEvent>, frames: seq<Frame>, fit: nat, max: int)
    requires AllOneLine(frames) && FitCount(frames, fit, max)
    ensures Feed(Parser(MESSAGE_TYPE, [], y), FormatAll(frames), max) == AfterFrames(y, frames, fit, max)
    decreases |frames|
  {
    if frames == [] {
      assert y + EventsOf(frames[..fit]) == y;
    } else {
      FrameIsParsed(y, frames[0], FormatAll(frames[1..]), max);
      if fit == 0 {
        assert y + EventsOf(frames[..fit]) == y;
      } else {
        FitCountOfRest(frames, fit, max);
        FramesAreParsed(y + [EventOf(frames[0])], frames[1..], fit - 1, max);
        AfterFramesStep(y, frames, fit, max);
      }
    }
  }

  /** However the stream is chunked, the parser returns exactly the frames up to the first
      one over the cap; so it returns all of them, and no error, exactly when they all fit. */
  lemma FormatParseRoundTrip(frames: seq<Frame>, fit: nat, chunks: seq<Text>, max: nat)
    requires Concat(chunks) == FormatAll(frames) && AllOneLine(frames) && FitCount(frames, fit, max)
    ensures Parse(chunks, max) == Outcome(EventsOf(frames[..fit]), if fit < |frames| then Some(LineTooLong) else None)
  {
    ParseIsFeed(chunks, max);
    FramesAreParsed([], frames, fit, max);
    assert [] + EventsOf(frames[..fit]) == EventsOf(frames[..fit]);
  }

  // ---------- payloads over several data lines ----------

  function DataLines(lines: seq<Text>): Text {
    if lines == [] then [LF] else Lit("data: ") + lines[0] + [LF] + DataLines(lines[1..])
  }

  /** The lines joined by line feeds, as the SSE standard asks. */
  function Joined(lines: seq<Text>): Text {
    if lines == [] then [] else if |lines| == 1 then lines[0] else lines[0] + [LF] + Joined(lines[1..])
  }

  function DropLeadingEmpty(lines: seq<Text>): seq<Text> {
    if lines != [] && lines[0] == [] then DropLeadingEmpty(lines[1..]) else lines
  }

  /** What `lines` add to data already collected. */
  function Suffix(lines: seq<Text>): Text { if lines == [] then [] else [LF] + Joined(lines) }

  function WithLine(p: Parser, line: Text): Parser {
    p.(eventData := if p.eventData == [] then line else p.eventData + [LF] + line)
  }

  lemma FirstDataLine(p: Parser, lines: seq<Text>, rest: Text, max: nat)
    requires lines != [] && PlainLine(lines[0]) && |lines[0]| + 6 <= max && |WithLine(p, lines[0]).eventData| <= max
    ensures Feed(p, DataLines(lines) + rest, max) == Feed(WithLine(p, lines[0]), DataLines(lines[1..]) + rest, max)
  {
    var data := Lit("data: ") + lines[0];
    assert LF !in Lit("data: ") && LF !in data;
    assert DataLines(lines) + rest == data + [LF] + (DataLines(lines[1..]) + rest);
    DataLine(p, lines[0], max);
    LineEnds(p, data, DataLines(lines[1..]) + rest, max);
  }

  lemma BlankLine(p: Parser, rest: Text, max: nat)
    ensures Feed(p, DataLines([]) + rest, max) == Feed(if p.eventData == [] then p
      else Parser(MESSAGE_TYPE, [], p.yielded + [SseEvent(p.eventType, p.eventData)]), rest, max)
  {
    assert DataLines([]) + rest == [] + [LF] + rest;
    LineEnds(p, [], rest, max);
  }

  lemma SuffixCons(data: Text, lines: seq<Text>)
    requires lines != []
    ensures data + Suffix(lines) == data + [LF] + lines[0] + Suffix(lines[1..])
  {}

  lemma {:induction false} ContinuedData(p: Parser, lines: seq<Text>, data: Text, rest: Text, max: nat)
    requires p.eventData != [] && forall i | 0 <= i < |lines| :: PlainLine(lines[i])
    requires data == p.eventData + Suffix(lines) && |data| + 6 <= max
    ensures Feed(p, DataLines(lines) + rest, max) ==
      Feed(Parser(MESSAGE_TYPE, [], p.yielded + [SseEvent(p.eventType, data)]), rest, max)
    decreases |lines|
  {
    if lines == [] {
      BlankLine(p, rest, max);
      assert data == p.eventData;
    } else {
      var q := WithLine(p, lines[0]);
      SuffixCons(p.eventData, lines);
      FirstDataLine(p, lines, rest, max);
      ContinuedData(q, lines[1..], data, rest, max);
    }
  }

  predicate PlainLine(line: Text) { LF !in line && (line != [] ==> line[|line| - 1] != CR) }

  /** A payload spread over `data:` lines comes back joined, except that empty first lines
      vanish, and a payload of empty lines only yields no event. */
  lemma {:induction false} MultiLineData(y: seq<SseEvent>, lines: seq<Text>, rest: Text, max: nat)
    requires forall i | 0 <= i < |lines| :: PlainLine(lines[i])
    requires |Joined(lines)| + 6 <= max
    ensures var kept := DropLeadingEmpty(lines);
      Feed(Parser(MESSAGE_TYPE, [], y), DataLines(lines) + rest, max) ==
      Feed(Parser(MESSAGE_TYPE, [], if kept == [] then y else y + [SseEvent(MESSAGE_TYPE, Joined(kept))]), rest, max)
    decreases |lines|
  {
    var p := Parser(MESSAGE_TYPE, [], y);
    if lines == [] {
      BlankLine(p, rest, max);
    } else {
      assert Joined(lines) == lines[0] + Suffix(lines[1..]);
      assert lines[0] == [] ==> |Joined(lines[1..])| <= |Joined(lines)|;
      FirstDataLine(p, lines, rest, max);
      if lines[0] == [] {
        MultiLineData(y, lines[1..], rest, max);
      } else {
        ContinuedData(WithLine(p, lines[0]), lines[1..], Joined(lines), rest, max);
      }
    }
  }

  // ---------- lines of other servers ----------

  /** The space after a field name is optional: without it the rest of the line is the value, unless
      that begins with a space itself. */
  lemma SpaceIsOptional(p: Parser, value: Text, max: int)
    requires value == [] || value[0] != SPACE
    ensures Line(p, Lit("data:") + value, max) == Line(p, Lit("data: ") + value, max)
    ensures Line(p, Lit("event:") + value, max) == Line(p, Lit("event: ") + value, max) == Ok(p.(eventType := value))
  {
    FieldLine(p, value, max);
    FieldLine(p, [SPACE] + value, max);
    assert Lit("data:") + ([SPACE] + value) == Lit("data: ") + value;
    assert Lit("event:") + ([SPACE] + value) == Lit("event: ") + value;
    assert ([SPACE] + value)[1..] == value;
  }

  lemma FieldLine(p: Parser, value: Text, max: int)
    ensures var stripped := if value != [] && value[0] == SPACE then value[1..] else value;
      && Line(p, Lit("event:") + value, max) == Ok(p.(eventType := stripped))
      && Line(p, Lit("data:") + value, max) ==
           var data := if p.eventData == [] then stripped else p.eventData + [LF] + stripped;
           if |data| > max then Err(DataTooLong) else Ok(p.(eventData := data))
  {
    var e, d := Lit("event:") + value, Lit("data:") + value;
    assert e[0] == 101 && e[..6] == EVENT_FIELD && e[6..] == value;
    assert d[0] == 100 && d[..5] == DATA_FIELD && d[5..] == value;
    assert EVENT_FIELD[0] == 101;
  }

  /** A comment, and a line of any other field, change nothing. */
  lemma OtherLinesAreIgnored(p: Parser, line: Text, max: int)
    requires line != []
    requires line[0] == ':' as int || (!(Lit("event:") <= line) && !(Lit("data:") <= line))
    ensures Line(p, line, max) == Ok(p)
  {}

  /** A line may end in CR LF; the CR counts for the line cap only. */
  lemma CrLfEndsALine(p: Parser, line: Text, rest: Text, max: int)
    requires LF !in line && (line == [] || line[|line| - 1] != CR) && |line| < max
    ensures Feed(p, line + [CR] + [LF] + rest, max) == Feed(p, line + [LF] + rest, max)
  {
    assert LF !in line + [CR] && (line + [CR])[..|line|] == line;
    LineEnds(p, line + [CR], rest, max);
    LineEnds(p, line, rest, max);
  }

  lemma AfterAllFrames(frames: seq<Frame>, x: Text, max: nat)
    requires AllOneLine(frames) && forall i | 0 <= i < |frames| :: Fits(frames[i], max)
    ensures Feed(INITIAL, FormatAll(frames) + x, max) == Feed(Parser(MESSAGE_TYPE, [], EventsOf(frames)), x, max)
  {
    FramesAreParsed([], frames, |frames|, max);
    assert frames[..|frames|] == frames && [] + EventsOf(frames) == EventsOf(frames) && [] + x == x;
    FeedSplits(INITIAL, FormatAll(frames), x, max);
  }

  lemma LastDataLine(p: Parser, json: Text, max: nat)
    requires OneLine(json) && p.eventData == [] && |json| + 6 <= max
    ensures Feed(p, Lit("data: ") + json + [LF], max) == Fed(p.(eventData := json), [])
    ensures Feed(p, Lit("data: ") + json, max) == Fed(p, Lit("data: ") + json)
  {
    var data := Lit("data: ") + json;
    assert LF !in Lit("data: ") && LF !in data;
    DataLine(p, json, max);
    LineEnds(p, data, [], max);
    assert data + [LF] + [] == data + [LF];
  }

  /** A stream that ends without the blank line still gives its last event, if the line of its data
      was complete; a line that was not is dropped. */
  lemma TruncatedStream(frames: seq<Frame>, json: Text, chunks: seq<Text>, max: nat)
    requires AllOneLine(frames) && (forall i | 0 <= i < |frames| :: Fits(frames[i], max))
    requires OneLine(json) && |json| + 6 <= max
    ensures Concat(chunks) == FormatAll(frames) + (Lit("data: ") + json + [LF]) ==>
      Parse(chunks, max) == Outcome(EventsOf(frames) + [SseEvent(Lit("message"), json)], None)
    ensures Concat(chunks) == FormatAll(frames) + (Lit("data: ") + json) ==>
      Parse(chunks, max) == Outcome(EventsOf(frames), None)
  {
    ParseIsFeed(chunks, max);
    AfterAllFrames(frames, Lit("data: ") + json + [LF], max);
    AfterAllFrames(frames, Lit("data: ") + json, max);
    LastDataLine(Parser(MESSAGE_TYPE, [], EventsOf(frames)), json, max);
  }
}
