/** The block parser, and its agreement with the line reader on well-formed streams. */
module SseAgreement {
  import opened Entities
  import opened SseLines
  import opened SseBlocks
  import opened SseRoundTrip

  datatype SseError = MalformedData

  type BlockItem = Result<BeaconEvent, SseError>

  /** `str::lines`: a carriage return just before the newline is dropped, an empty last line is not a line. */
  function StripReturn(line: string): string {
    if line != "" && line[|line| - 1] == '\r' then line[..|line| - 1] else line
  }

  function StripReturns(lines: seq<string>): seq<string> {
    if lines == [] then [] else StripReturns(lines[..|lines| - 1]) + [StripReturn(lines[|lines| - 1])]
  }

  function TextLines(text: string): seq<string> {
    var split := SplitLines(text);
    StripReturns(split.lines) + if split.rest == "" then [] else [split.rest]
  }

  datatype Fields = Fields(kind: Option<string>, data: string)

  /** The last type line wins; data lines are trimmed and joined by spaces. */
  function AddLine(fields: Fields, line: string): Fields {
    if EVENT <= line then fields.(kind := Some(Trim(line[|EVENT|..])))
    else if DATA <= line then
      fields.(data := fields.data + (if fields.data != "" then " " else "") + Trim(line[|DATA|..]))
    else fields
  }

  function Collect(lines: seq<string>): Fields {
    if lines == [] then Fields(None, "") else AddLine(Collect(lines[..|lines| - 1]), lines[|lines| - 1])
  }

  function ParseBlock(dec: Decoder, text: string): Option<BlockItem> {
    var fields := Collect(TextLines(text));
    if fields.kind.None? || fields.data == "" then None
    else match Decode(dec, fields.kind.value, fields.data)
      case UnknownType => None
      case Malformed => Some(Err(MalformedData))
      case Event(e) => Some(Ok(e))
  }

  /** `parse_event` as it loops. */
  method ParseEvent(dec: Decoder, text: string) returns (r: Option<BlockItem>)
    ensures r == ParseBlock(dec, text)
  {
    var lines := TextLines(text);
    var eventType: Option<string> := None;
    var eventData := "";
    for i := 0 to |lines|
      invariant Fields(eventType, eventData) == Collect(lines[..i])
    {
      assert lines[..i + 1][..i] == lines[..i];
      var line := lines[i];
      if EVENT <= line {
        eventType := Some(Trim(line[|EVENT|..]));
      } else if DATA <= line {
        if eventData != "" { eventData := eventData + " "; }
        eventData := eventData + Trim(line[|DATA|..]);
      }
    }
    assert lines[..|lines|] == lines;
    if eventType.None? || eventData == "" { return None; }
    match Decode(dec, eventType.value, eventData)
    case UnknownType => r := None;
    case Malformed => r := Some(Err(MalformedData));
    case Event(e) => r := Some(Ok(e));
  }

  datatype Message = Message(kind: string, data: string)

  /** One type line, one data line, the data not empty and already trimmed. */
  predicate WellFormed(m: Message) {
    OneLine(m.kind) && OneLine(m.data) && m.data != "" && Trim(m.data) == m.data
  }

  function Text(m: Message): string {
    EVENT + m.kind + [NEWLINE] + DATA + m.data
  }

  /** The events among the block parser's results. */
  function Successes(items: seq<BlockItem>): seq<BeaconEvent> {
    if items == [] then []
    else Successes(items[..|items| - 1]) + if items[|items| - 1].Ok? then [items[|items| - 1].value] else []
  }

  lemma {:induction false} TrimStartPrefix(s: string, c: char)
    requires IsWhitespace(c)
    ensures TrimStart(s + [c]) == if TrimStart(s) == "" then "" else TrimStart(s) + [c]
    decreases |s|
  {
    if s == "" {
      assert (s + [c])[1..] == "";
    } else if IsWhitespace(s[0]) {
      assert (s + [c])[1..] == s[1..] + [c];
      TrimStartPrefix(s[1..], c);
    }
  }

  /** A carriage return at the end makes no difference to what a trimmed type line says. */
  lemma TrimIgnoresReturn(s: string)
    ensures Trim(s + ['\r']) == Trim(s)
  {
    TrimStartPrefix(s, '\r');
    var t := TrimStart(s);
    if t != "" { assert (t + ['\r'])[..|t|] == t; }
  }

  lemma MessageLines(m: Message)
    requires WellFormed(m)
    ensures TextLines(Text(m)) == [StripReturn(EVENT + m.kind), DATA + m.data]
  {
    var typeLine, dataLine := EVENT + m.kind, DATA + m.data;
    assert OneLine(typeLine) && OneLine(dataLine);
    assert Text(m) == typeLine + [NEWLINE] + dataLine;
    SplitFirst(typeLine, dataLine);
    SplitNone(dataLine);
    assert [typeLine] + [] == [typeLine];
    assert StripReturns([typeLine]) == [StripReturn(typeLine)] by { assert [typeLine][..0] == []; }
  }

  lemma CollectTwo(a: string, b: string)
    ensures Collect([a, b]) == AddLine(AddLine(Fields(None, ""), a), b)
  {
    assert [a, b][..1] == [a] && [a][..0] == [];
    assert Collect([a]) == AddLine(Fields(None, ""), a);
  }

  lemma AddTypeLine(fields: Fields, kind: string)
    ensures AddLine(fields, StripReturn(EVENT + kind)) == fields.(kind := Some(Trim(kind)))
  {
    var line := EVENT + kind;
    assert line[|EVENT|..] == kind;
    if StripReturn(line) != line {
      assert kind != "" by { assert EVENT[|EVENT| - 1] == ' '; }
      var short := kind[..|kind| - 1];
      assert kind == short + ['\r'];
      assert StripReturn(line) == EVENT + short && (EVENT + short)[|EVENT|..] == short;
      TrimIgnoresReturn(short);
    }
  }

  lemma AddDataLine(kind: Option<string>, data: string)
    requires Trim(data) == data
    ensures AddLine(Fields(kind, ""), DATA + data) == Fields(kind, data)
  {
    var line := DATA + data;
    assert line[|DATA|..] == data && EVENT[0] == 'e' && line[0] == 'd';
    assert "" + "" + data == data;
  }

  lemma MessageFields(m: Message)
    requires WellFormed(m)
    ensures Collect(TextLines(Text(m))) == Fields(Some(Trim(m.kind)), m.data)
  {
    MessageLines(m);
    CollectTwo(StripReturn(EVENT + m.kind), DATA + m.data);
    AddTypeLine(Fields(None, ""), m.kind);
    AddDataLine(Some(Trim(m.kind)), m.data);
  }

  function BlockEvent(item: Option<BlockItem>): seq<BeaconEvent> {
    if item.Some? && item.value.Ok? then [item.value.value] else []
  }

  lemma ReadThree(dec: Decoder, current: Option<string>, a: string, b: string)
    ensures var first := ProcessLine(dec, current, a);
            var second := ProcessLine(dec, first.current, b);
            ProcessLines(dec, current, [a, b, ""]) == Parsed(second.current, first.events + second.events)
  {
    ProcessOneMore(dec, current, [], a);
    ProcessOneMore(dec, current, [a], b);
    ProcessOneMore(dec, current, [a, b], "");
    assert [] + [a] == [a] && [a] + [b] == [a, b] && [a, b] + [""] == [a, b, ""];
  }

  lemma ReadMessage(dec: Decoder, current: Option<string>, m: Message)
    ensures var decoded := Decode(dec, Trim(m.kind), m.data);
            ProcessLines(dec, current, [EVENT + m.kind, DATA + m.data, ""])
            == Parsed(None, if decoded.Event? then [decoded.event] else [])
  {
    ReadThree(dec, current, EVENT + m.kind, DATA + m.data);
    TypeLine(dec, current, m.kind);
    DataLine(dec, Trim(m.kind), m.data);
  }

  /** On one message the two parsers agree: the line reader's event is the block parser's, and a type
      nobody knows is nothing to either.  Data that does not decode is reported by one, dropped by the other. */
  lemma ParsersAgreeOnMessage(dec: Decoder, current: Option<string>, m: Message)
    requires WellFormed(m)
    ensures ParseBlock(dec, Text(m)) == (match Decode(dec, Trim(m.kind), m.data)
              case UnknownType => None case Malformed => Some(Err(MalformedData)) case Event(e) => Some(Ok(e)))
    ensures ProcessLines(dec, current, [EVENT + m.kind, DATA + m.data, ""])
            == Parsed(None, BlockEvent(ParseBlock(dec, Text(m))))
  {
    MessageFields(m);
    ReadMessage(dec, current, m);
  }

  const BLANK_LINE := "\n\n"

  /** The stream of some messages, each ended by a blank line. */
  function Stream(ms: seq<Message>): string {
    if ms == [] then "" else Stream(ms[..|ms| - 1]) + Text(ms[|ms| - 1]) + BLANK_LINE
  }

  function Texts(ms: seq<Message>): seq<string> {
    if ms == [] then [] else Texts(ms[..|ms| - 1]) + [Text(ms[|ms| - 1])]
  }

  /** A message's text holds no blank line, nor does it begin one together with the blank line after it. */
  lemma TextHasNoBlankLine(m: Message)
    requires WellFormed(m)
    ensures NoWindow(2, BLANK_LINE, Text(m) + [NEWLINE])
  {
    var text := Text(m) + [NEWLINE];
    var typeLine := EVENT + m.kind;
    forall i: nat ensures !WindowAt(2, BLANK_LINE, text, i) {
      if i + 2 <= |text| {
        assert text[i..i + 2] == [text[i], text[i + 1]];
        assert text[|typeLine|] == NEWLINE && text[|typeLine| + 1] == DATA[0];
        assert |text| == |typeLine| + 1 + |DATA| + |m.data| + 1;
        if i < |typeLine| {
          assert text[i] == typeLine[i] && OneLine(typeLine);
        } else if i > |typeLine| {
          var dataLine := DATA + m.data;
          assert OneLine(dataLine) && text[i] == dataLine[i - |typeLine| - 1];
        }
      }
    }
  }

  lemma MessageIsOneBlock(m: Message)
    requires WellFormed(m)
    ensures Frames(2, BLANK_LINE, Text(m) + BLANK_LINE) == Framed([Text(m)], "")
  {
    var front := Text(m) + [NEWLINE];
    TextHasNoBlankLine(m);
    assert front + [NEWLINE] == Text(m) + BLANK_LINE;
    assert (front + [NEWLINE])[|Text(m)|..|Text(m)| + 2] == BLANK_LINE;
    NoWindowNoFrames(2, BLANK_LINE, front);
    PushBlock(2, BLANK_LINE, front, NEWLINE, |Text(m)|);
    FrameOneMore(2, BLANK_LINE, front, NEWLINE);
    assert (front + [NEWLINE])[..|Text(m)|] == Text(m) && Text(m) != "";
  }

  lemma {:induction false} StreamFrames(ms: seq<Message>)
    requires forall m :: m in ms ==> WellFormed(m)
    ensures Frames(2, BLANK_LINE, Stream(ms)) == Framed(Texts(ms), "")
  {
    if ms != [] {
      var before, last := ms[..|ms| - 1], ms[|ms| - 1];
      StreamFrames(before);
      FramesContinue(2, BLANK_LINE, Stream(before), Text(last) + BLANK_LINE);
      assert Stream(ms) == Stream(before) + (Text(last) + BLANK_LINE);
      assert "" + (Text(last) + BLANK_LINE) == Text(last) + BLANK_LINE;
      MessageIsOneBlock(last);
    }
  }

  function WireLines(ms: seq<Message>): seq<string> {
    if ms == [] then [] else WireLines(ms[..|ms| - 1]) + [EVENT + ms[|ms| - 1].kind, DATA + ms[|ms| - 1].data, ""]
  }

  lemma UnlinesThree(a: string, b: string)
    ensures Unlines([a, b, ""]) == a + [NEWLINE] + b + BLANK_LINE
  {
    assert [a, b, ""][..2] == [a, b] && [a, b][..1] == [a] && [a][..0] == [];
    assert Unlines([a]) == a + [NEWLINE];
    assert Unlines([a, b]) == a + [NEWLINE] + b + [NEWLINE];
    assert [NEWLINE] + "" + [NEWLINE] == BLANK_LINE;
  }

  lemma {:induction false} UnlinesConcat(a: seq<string>, b: seq<string>)
    ensures Unlines(a + b) == Unlines(a) + Unlines(b)
  {
    if b == [] {
      assert a + b == a;
    } else {
      var n := |b| - 1;
      assert (a + b)[..|a + b| - 1] == a + b[..n];
      UnlinesConcat(a, b[..n]);
    }
  }

  lemma WireOfMessage(m: Message)
    requires WellFormed(m)
    ensures Unlines([EVENT + m.kind, DATA + m.data, ""]) == Text(m) + BLANK_LINE
    ensures OneLine(EVENT + m.kind) && OneLine(DATA + m.data)
  {
    UnlinesThree(EVENT + m.kind, DATA + m.data);
    assert Text(m) + BLANK_LINE == EVENT + m.kind + [NEWLINE] + (DATA + m.data) + BLANK_LINE;
  }

  lemma {:induction false} StreamLines(ms: seq<Message>)
    requires forall m :: m in ms ==> WellFormed(m)
    ensures Stream(ms) == Unlines(WireLines(ms))
  {
    if ms != [] {
      var before, last := ms[..|ms| - 1], ms[|ms| - 1];
      StreamLines(before);
      WireOfMessage(last);
      UnlinesConcat(WireLines(before), [EVENT + last.kind, DATA + last.data, ""]);
    }
  }

  lemma {:induction false} WireLinesAreLines(ms: seq<Message>)
    requires forall m :: m in ms ==> WellFormed(m)
    ensures forall l :: l in WireLines(ms) ==> OneLine(l)
  {
    if ms != [] {
      WireLinesAreLines(ms[..|ms| - 1]);
      WireOfMessage(ms[|ms| - 1]);
    }
  }

  lemma SuccessesOneMore(items: seq<BlockItem>, item: Option<BlockItem>)
    ensures Successes(items + if item.Some? then [item.value] else [])
         == Successes(items) + BlockEvent(item)
  {
    if item.Some? { assert (items + [item.value])[..|items|] == items; } else { assert items + [] == items; }
  }

  lemma {:induction false} LinesMatchBlocks(dec: Decoder, ms: seq<Message>)
    requires forall m :: m in ms ==> WellFormed(m)
    ensures ProcessLines(dec, None, WireLines(ms)) 
         == Parsed(None, Successes(ParseAll(t => ParseBlock(dec, t), Texts(ms))))
  {
    if ms != [] {
      var before, last := ms[..|ms| - 1], ms[|ms| - 1];
      LinesMatchBlocks(dec, before);
      ProcessConcat(dec, None, WireLines(before), [EVENT + last.kind, DATA + last.data, ""]);
      ParsersAgreeOnMessage(dec, None, last);
      SuccessesOneMore(ParseAll(t => ParseBlock(dec, t), Texts(before)), ParseBlock(dec, Text(last)));
      assert Texts(ms)[..|Texts(ms)| - 1] == Texts(before);
    }
  }

  /** On every stream of messages the two readers, framing and parsing included, deliver the same events
      in the same order, once the block reader's decode errors are left out.  The block reader may
      receive the stream in any pieces and with any pauses. */
  lemma ReadersAgree(dec: Decoder, ms: seq<Message>, inner: seq<Polled<char, SseError>>)
    requires forall m :: m in ms ==> WellFormed(m)
    requires forall i :: 0 <= i < |inner| ==> inner[i].Chunk? || inner[i].NotReady?
    requires Delivered(inner) == Stream(ms)
    ensures EventsOf(dec, Stream(ms)) == Successes(Future(2, BLANK_LINE, t => ParseBlock(dec, t), "", inner))
  {
    var parse := t => ParseBlock(dec, t);
    CutsDoNotMatter(2, BLANK_LINE, parse, "", inner);
    assert "" + Delivered(inner) == Stream(ms);
    StreamFrames(ms);
    StreamLines(ms);
    WireLinesAreLines(ms);
    SplitOfUnlines(WireLines(ms), "");
    assert Unlines(WireLines(ms)) + "" == Unlines(WireLines(ms));
    LinesMatchBlocks(dec, ms);
  }
}
