/** The relay service's reading of the beacon node's event stream, line by line
    (crates/app/src/relay_service.rs).  The subset of the WHATWG HTML Living Standard, sections 9.2.5
    and 9.2.6, it implements dispatches an event on its `data:` line, not on the blank line after it. */
module SseLines {
  import opened Entities

  datatype HeadEvent = HeadEvent(slot: U64, block: string, epochTransition: bool, executionOptimistic: bool)

  datatype PayloadAttributesEvent = PayloadAttributesEvent(
    version: string, proposalSlot: U64, parentBlockHash: string,
    timestamp: U64, prevRandao: string, suggestedFeeRecipient: string)

  datatype BeaconEvent = Head(head: HeadEvent) | Attributes(attributes: PayloadAttributesEvent)

  /** JSON decoding, left unspecified: each decoder may refuse a text. */
  datatype Decoder = Decoder(head: string -> Option<HeadEvent>, attributes: string -> Option<PayloadAttributesEvent>)

  datatype Decoded = UnknownType | Malformed | Event(event: BeaconEvent)

  function Decode(dec: Decoder, kind: string, data: string): Decoded {
    if kind == "head" then
      (match dec.head(data) case Some(h) => Event(Head(h)) case None => Malformed)
    else if kind == "payload_attributes" then
      (match dec.attributes(data) case Some(a) => Event(Attributes(a)) case None => Malformed)
    else UnknownType
  }

  /** The Unicode White_Space property, which `str::trim` strips. */
  predicate IsWhitespace(c: char) {
    var n := c as int;
    9 <= n <= 13 || n == 0x20 || n == 0x85 || n == 0xA0 || n == 0x1680 || 0x2000 <= n <= 0x200A
    || n == 0x2028 || n == 0x2029 || n == 0x202F || n == 0x205F || n == 0x3000
  }

  function TrimStart(s: string): string {
    if s != "" && IsWhitespace(s[0]) then TrimStart(s[1..]) else s
  }

  function TrimEnd(s: string): string {
    if s != "" && IsWhitespace(s[|s| - 1]) then TrimEnd(s[..|s| - 1]) else s
  }

  function Trim(s: string): string {
    TrimEnd(TrimStart(s))
  }

  const NEWLINE: char := '\n'
  const EVENT := "event: "
  const DATA := "data: "

  /** Position of the first newline, or the length when there is none. */
  function FindNewline(s: string): (p: nat)
    ensures p <= |s|
  {
    if s == "" || s[0] == NEWLINE then 0 else FindNewline(s[1..]) + 1
  }

  datatype Split = Split(lines: seq<string>, rest: string)

  /** The complete lines of a text and what follows its last newline, character by character. */
  function SplitLines(text: string): Split {
    if text == "" then Split([], "")
    else
      var before, c := SplitLines(text[..|text| - 1]), text[|text| - 1];
      if c == NEWLINE then Split(before.lines + [before.rest], "") else Split(before.lines, before.rest + [c])
  }

  function Unlines(lines: seq<string>): string {
    if lines == [] then "" else Unlines(lines[..|lines| - 1]) + lines[|lines| - 1] + [NEWLINE]
  }

  predicate OneLine(s: string) {
    forall i :: 0 <= i < |s| ==> s[i] != NEWLINE
  }

  lemma {:induction false} FindNewlineIsFirst(s: string)
    ensures var p := FindNewline(s); OneLine(s[..p]) && (p < |s| ==> s[p] == NEWLINE)
  {
    if s != "" && s[0] != NEWLINE {
      FindNewlineIsFirst(s[1..]);
      var p := FindNewline(s[1..]);
      assert s[..p + 1] == [s[0]] + s[1..][..p];
    }
  }

  /** Lines and left-over rebuild the text, and none of them holds a newline. */
  lemma {:induction false} SplitRebuilds(text: string)
    ensures Unlines(SplitLines(text).lines) + SplitLines(text).rest == text
    ensures OneLine(SplitLines(text).rest)
    ensures forall l :: l in SplitLines(text).lines ==> OneLine(l)
  {
    if text != "" {
      var before := SplitLines(text[..|text| - 1]);
      SplitRebuilds(text[..|text| - 1]);
      assert (before.lines + [before.rest])[..|before.lines|] == before.lines;
      assert text == text[..|text| - 1] + [text[|text| - 1]];
    }
  }

  lemma {:induction false} SplitNone(text: string)
    requires OneLine(text)
    ensures SplitLines(text) == Split([], text)
  {
    if text != "" {
      SplitNone(text[..|text| - 1]);
      assert text == text[..|text| - 1] + [text[|text| - 1]];
    }
  }

  /** Splitting what is left over together with more text continues the splitting of the whole. */
  lemma {:induction false} SplitContinues(a: string, b: string)
    ensures var left := SplitLines(SplitLines(a).rest + b);
            SplitLines(a + b) == Split(SplitLines(a).lines + left.lines, left.rest)
  {
    var done := SplitLines(a);
    if b == "" {
      SplitRebuilds(a);
      SplitNone(done.rest);
      assert a + b == a && done.rest + b == done.rest && done.lines + [] == done.lines;
    } else {
      var n := |b| - 1;
      SplitContinues(a, b[..n]);
      assert (a + b)[..|a + b| - 1] == a + b[..n] && (done.rest + b)[..|done.rest + b| - 1] == done.rest + b[..n];
      var left := SplitLines(done.rest + b[..n]);
      assert done.lines + (left.lines + [left.rest]) == (done.lines + left.lines) + [left.rest];
    }
  }

  /** Cutting at a newline: the line before it, then the lines of the text after it. */
  lemma SplitFirst(line: string, more: string)
    requires OneLine(line)
    ensures SplitLines(line + [NEWLINE] + more) == Split([line] + SplitLines(more).lines, SplitLines(more).rest)
  {
    SplitNone(line);
    assert (line + [NEWLINE])[..|line|] == line;
    SplitContinues(line + [NEWLINE], more);
    assert "" + more == more && [] + [line] == [line];
  }

  lemma SplitOneMore(lines: seq<string>, line: string, rest: string)
    requires SplitLines(Unlines(lines) + line) == Split(lines, line) && OneLine(rest)
    ensures SplitLines((Unlines(lines) + line + [NEWLINE]) + rest) == Split(lines + [line], rest)
  {
    var text := Unlines(lines) + line;
    assert (text + [NEWLINE])[..|text|] == text;
    assert SplitLines(text + [NEWLINE]) == Split(lines + [line], "");
    SplitContinues(text + [NEWLINE], rest);
    assert "" + rest == rest;
    SplitNone(rest);
    assert (lines + [line]) + [] == lines + [line];
  }

  /** The splitting is the only one: any lines and left-over without newlines are found again. */
  lemma {:induction false} SplitOfUnlines(lines: seq<string>, rest: string)
    requires OneLine(rest) && forall l :: l in lines ==> OneLine(l)
    ensures SplitLines(Unlines(lines) + rest) == Split(lines, rest)
  {
    if lines == [] {
      assert "" + rest == rest;
      SplitNone(rest);
    } else {
      var n := |lines| - 1;
      SplitOfUnlines(lines[..n], lines[n]);
      SplitOneMore(lines[..n], lines[n], rest);
      assert lines == lines[..n] + [lines[n]];
    }
  }

  datatype Parsed = Parsed(current: Option<string>, events: seq<BeaconEvent>)

  /** `process_sse_line`: the pending event type after the line, and the event the line completes. */
  function ProcessLine(dec: Decoder, current: Option<string>, line: string): Parsed {
    if line == "" || line[0] == ':' then Parsed(current, [])
    else if EVENT <= line then Parsed(Some(Trim(line[|EVENT|..])), [])
    else if DATA <= line then
      if current.None? then Parsed(None, [])
      else
        var decoded := Decode(dec, current.value, line[|DATA|..]);
        Parsed(None, if decoded.Event? then [decoded.event] else [])
    else Parsed(current, [])
  }

  function ProcessLines(dec: Decoder, current: Option<string>, lines: seq<string>): Parsed {
    if lines == [] then Parsed(current, [])
    else
      var before := ProcessLines(dec, current, lines[..|lines| - 1]);
      var last := ProcessLine(dec, before.current, lines[|lines| - 1]);
      Parsed(last.current, before.events + last.events)
  }

  lemma ProcessOneMore(dec: Decoder, current: Option<string>, lines: seq<string>, line: string)
    ensures var before := ProcessLines(dec, current, lines);
            var last := ProcessLine(dec, before.current, line);
            ProcessLines(dec, current, lines + [line]) == Parsed(last.current, before.events + last.events)
  {
    assert (lines + [line])[..|lines|] == lines;
  }

  lemma CutAt<T>(s: seq<T>, p: nat)
    requires p < |s|
    ensures s == s[..p] + [s[p]] + s[p + 1..]
  {
  }

  /** The buffer loop part way: `cut` has been processed, `buffer` is still to be searched, and the lines
      of both are those of `text`. */
  ghost predicate Cutting(dec: Decoder, kind: Option<string>, text: string, cut: seq<string>, buffer: string,
                          done: Parsed)
  {
    && SplitLines(text) == Split(cut + SplitLines(buffer).lines, SplitLines(buffer).rest)
    && done == ProcessLines(dec, kind, cut)
  }

  lemma CutLines(text: string, cut: seq<string>, line: string, more: string)
    requires OneLine(line)
    requires var left := SplitLines(line + [NEWLINE] + more);
             SplitLines(text) == Split(cut + left.lines, left.rest)
    ensures SplitLines(text) == Split((cut + [line]) + SplitLines(more).lines, SplitLines(more).rest)
  {
    SplitFirst(line, more);
    assert cut + ([line] + SplitLines(more).lines) == (cut + [line]) + SplitLines(more).lines;
  }

  lemma CutLine(dec: Decoder, kind: Option<string>, text: string, cut: seq<string>, buffer: string, done: Parsed)
    requires Cutting(dec, kind, text, cut, buffer, done) && FindNewline(buffer) < |buffer|
    ensures var p := FindNewline(buffer);
            var last := ProcessLine(dec, done.current, buffer[..p]);
            Cutting(dec, kind, text, cut + [buffer[..p]], buffer[p + 1..],
                    Parsed(last.current, done.events + last.events))
  {
    var p := FindNewline(buffer);
    FindNewlineIsFirst(buffer);
    CutAt(buffer, p);
    CutLines(text, cut, buffer[..p], buffer[p + 1..]);
    ProcessOneMore(dec, kind, cut, buffer[..p]);
  }

  lemma CutNone(dec: Decoder, kind: Option<string>, text: string, cut: seq<string>, buffer: string, done: Parsed)
    requires Cutting(dec, kind, text, cut, buffer, done) && FindNewline(buffer) == |buffer|
    ensures SplitLines(text) == Split(cut, buffer) && done == ProcessLines(dec, kind, SplitLines(text).lines)
  {
    FindNewlineIsFirst(buffer);
    assert buffer[..|buffer|] == buffer && cut + [] == cut;
    SplitNone(buffer);
  }

  lemma {:induction false} ProcessConcat(dec: Decoder, current: Option<string>, a: seq<string>, b: seq<string>)
    ensures var first := ProcessLines(dec, current, a);
            var second := ProcessLines(dec, first.current, b);
            ProcessLines(dec, current, a + b) == Parsed(second.current, first.events + second.events)
  {
    if b == [] {
      assert a + b == a;
      assert ProcessLines(dec, current, a).events + [] == ProcessLines(dec, current, a).events;
    } else {
      var n := |b| - 1;
      assert (a + b)[..|a + b| - 1] == a + b[..n];
      ProcessConcat(dec, current, a, b[..n]);
    }
  }

  /** The events of a whole text, read from the start. */
  function EventsOf(dec: Decoder, text: string): seq<BeaconEvent> {
    ProcessLines(dec, None, SplitLines(text).lines).events
  }

  /** What arrives before the transport first fails. */
  function Received(chunks: seq<Result<string, string>>): string {
    if chunks == [] || chunks[0].Err? then "" else chunks[0].value + Received(chunks[1..])
  }

  function FirstError(chunks: seq<Result<string, string>>): string {
    if chunks == [] then "SSE stream ended"
    else if chunks[0].Err? then chunks[0].error
    else FirstError(chunks[1..])
  }

  class SseReader {
    const dec: Decoder
    var lineBuf: string
    var currentEvent: Option<string>
    var handled: seq<BeaconEvent>

    constructor (dec: Decoder)
      ensures this.dec == dec && lineBuf == "" && currentEvent == None && handled == []
    {
      this.dec := dec;
      lineBuf, currentEvent, handled := "", None, [];
    }

    method ProcessSseLine(line: string) returns (event: Option<BeaconEvent>)
      modifies this`currentEvent
      ensures var r := ProcessLine(dec, old(currentEvent), line);
              currentEvent == r.current && r.events == if event.Some? then [event.value] else []
    {
      if line == "" || line[0] == ':' { return None; }
      if EVENT <= line {
        currentEvent := Some(Trim(line[|EVENT|..]));
        return None;
      }
      if DATA <= line {
        var kind := currentEvent;
        currentEvent := None;
        if kind.None? { return None; }
        var decoded := Decode(dec, kind.value, line[|DATA|..]);
        event := if decoded.Event? then Some(decoded.event) else None;
      } else {
        event := None;
      }
    }

    /** The inner loop: cuts complete lines off the buffer, which shrinks each time. */
    method DrainLines()
      modifies this
      ensures lineBuf == SplitLines(old(lineBuf)).rest
      ensures var r := ProcessLines(dec, old(currentEvent), SplitLines(old(lineBuf)).lines);
              currentEvent == r.current && handled == old(handled) + r.events
    {
      ghost var text, kind, before := lineBuf, currentEvent, handled;
      ghost var cut: seq<string>, done := [], Parsed(kind, []);
      assert [] + SplitLines(text).lines == SplitLines(text).lines;
      while FindNewline(lineBuf) < |lineBuf|
        invariant Cutting(dec, kind, text, cut, lineBuf, done)
        invariant currentEvent == done.current && handled == before + done.events
        decreases |lineBuf|
      {
        var pos := FindNewline(lineBuf);
        var line := lineBuf[..pos];
        CutLine(dec, kind, text, cut, lineBuf, done);
        lineBuf := lineBuf[pos + 1..];
        var event := ProcessSseLine(line);
        if event.Some? { handled := handled + [event.value]; }
        ghost var last := ProcessLine(dec, done.current, line);
        cut, done := cut + [line], Parsed(last.current, done.events + last.events);
      }
      CutNone(dec, kind, text, cut, lineBuf, done);
    }

    /** What the buffer loop has done once the transport has delivered `text`. */
    ghost predicate HasRead(text: string)
      reads this
    {
      && lineBuf == SplitLines(text).rest
      && currentEvent == ProcessLines(dec, None, SplitLines(text).lines).current
      && handled == EventsOf(dec, text)
    }

    method ReadChunk(ghost text: string, s: string)
      requires HasRead(text)
      modifies this
      ensures HasRead(text + s)
    {
      SplitContinues(text, s);
      lineBuf := lineBuf + s;
      ProcessConcat(dec, None, SplitLines(text).lines, SplitLines(lineBuf).lines);
      DrainLines();
    }

    /** The whole connection.  However the text is cut into chunks, what is handled, the left-over and
        the pending type depend only on the text that arrived before the transport failed. */
    method ConnectSse(chunks: seq<Result<string, string>>) returns (error: string)
      requires lineBuf == "" && currentEvent == None && handled == []
      modifies this
      ensures HasRead(Received(chunks))
      ensures error == FirstError(chunks)
    {
      var i := 0;
      ghost var text := "";
      while i < |chunks|
        invariant 0 <= i <= |chunks|
        invariant text + Received(chunks[i..]) == Received(chunks)
        invariant FirstError(chunks) == FirstError(chunks[i..])
        invariant HasRead(text)
      {
        assert chunks[i..][1..] == chunks[i + 1..];
        match chunks[i]
        case Ok(s) =>
          ReadChunk(text, s);
          assert (text + s) + Received(chunks[i + 1..]) == text + (s + Received(chunks[i + 1..]));
          text := text + s;
          i := i + 1;
        case Err(e) =>
          assert text + "" == text;
          return e;
      }
      assert text + "" == text;
      error := "SSE stream ended";
    }
  }
}
