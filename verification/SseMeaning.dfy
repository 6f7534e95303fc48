/** What both readers make of the texts a beacon node sends, spelled out character by character and by the
    two decoders alone. */
module SseMeaning {
  import opened Entities
  import opened SseLines
  import opened SseBlocks
  import opened SseRoundTrip
  import opened SseAgreement

  predicate Blank(s: string) {
    forall i :: 0 <= i < |s| ==> IsWhitespace(s[i])
  }

  predicate Tight(s: string) {
    s != "" ==> !IsWhitespace(s[0]) && !IsWhitespace(s[|s| - 1])
  }

  lemma {:induction false} TrimStartStrips(before: string, rest: string)
    requires Blank(before)
    ensures TrimStart(before + rest) == TrimStart(rest)
  {
    if before == "" {
      assert before + rest == rest;
    } else {
      assert (before + rest)[1..] == before[1..] + rest;
      TrimStartStrips(before[1..], rest);
    }
  }

  lemma {:induction false} TrimEndStrips(rest: string, after: string)
    requires Blank(after)
    ensures TrimEnd(rest + after) == TrimEnd(rest)
  {
    if after == "" {
      assert rest + after == rest;
    } else {
      var n := |after| - 1;
      assert (rest + after)[..|rest + after| - 1] == rest + after[..n];
      TrimEndStrips(rest, after[..n]);
    }
  }

  /** Trimming takes the white space off both ends and nothing else. */
  lemma TrimStrips(before: string, body: string, after: string)
    requires Blank(before) && Tight(body) && Blank(after)
    ensures Trim(before + body + after) == body
  {
    assert before + body + after == before + (body + after);
    TrimStartStrips(before, body + after);
    if body == "" {
      assert body + after == after + "";
      TrimStartStrips(after, "");
    } else {
      TrimEndStrips(body, after);
    }
  }

  lemma TightStays(s: string)
    requires Tight(s)
    ensures Trim(s) == s
  {
    TrimStrips("", s, "");
    assert "" + s + "" == s;
  }

  lemma HeadLiteral()
    ensures EVENT + "head" == "event: head" && Trim("head") == "head"
  {
    TightStays("head");
  }

  lemma AttributesLiteral()
    ensures EVENT + "payload_attributes" == "event: payload_attributes"
    ensures Trim("payload_attributes") == "payload_attributes"
  {
    TightStays("payload_attributes");
  }

  /** The text of a message, with its line feed written where it stands. */
  lemma Spelled(first: string, d: string)
    ensures first + "\n" + DATA + d == first + "\ndata: " + d
  {
    assert "\n" + DATA == "\ndata: ";
    assert first + "\n" + DATA + d == first + ("\n" + DATA) + d;
  }

  lemma TwoLinesAreRead(dec: Decoder, c: Option<string>, kind: string, d: string)
    ensures var decoded := Decode(dec, Trim(kind), d);
            ProcessLines(dec, c, [EVENT + kind, DATA + d])
            == Parsed(None, if decoded.Event? then [decoded.event] else [])
  {
    ProcessOneMore(dec, c, [], EVENT + kind);
    ProcessOneMore(dec, c, [EVENT + kind], DATA + d);
    assert [] + [EVENT + kind] == [EVENT + kind] && [EVENT + kind] + [DATA + d] == [EVENT + kind, DATA + d];
    TypeLine(dec, c, kind);
    DataLine(dec, Trim(kind), d);
  }

  /** A head message gives the head event its data decodes to as one, and nothing if it does not. */
  lemma HeadIsRead(dec: Decoder, c: Option<string>, d: string)
    ensures ProcessLines(dec, c, ["event: head", "data: " + d])
         == Parsed(None, if dec.head(d).Some? then [Head(dec.head(d).value)] else [])
  {
    HeadLiteral();
    TwoLinesAreRead(dec, c, "head", d);
  }

  lemma AttributesAreRead(dec: Decoder, c: Option<string>, d: string)
    ensures ProcessLines(dec, c, ["event: payload_attributes", "data: " + d])
         == Parsed(None, if dec.attributes(d).Some? then [Attributes(dec.attributes(d).value)] else [])
  {
    AttributesLiteral();
    TwoLinesAreRead(dec, c, "payload_attributes", d);
  }

  lemma OtherTypesAreNothing(dec: Decoder, c: Option<string>, kind: string, d: string)
    requires Trim(kind) != "head" && Trim(kind) != "payload_attributes"
    ensures ProcessLines(dec, c, ["event: " + kind, "data: " + d]) == Parsed(None, [])
  {
    TwoLinesAreRead(dec, c, kind, d);
  }

  lemma ThreeLines(a: string, b: string)
    requires OneLine(a) && OneLine(b)
    ensures SplitLines(a + "\n" + b + "\n\n") == Split([a, b, ""], "")
  {
    UnlinesThree(a, b);
    SplitOfUnlines([a, b, ""], "");
    var text := a + "\n" + b + "\n\n";
    assert Unlines([a, b, ""]) == text && text + "" == text;
  }

  lemma TextIsRead(dec: Decoder, kind: string, d: string)
    requires OneLine(kind) && OneLine(d)
    ensures var decoded := Decode(dec, Trim(kind), d);
            EventsOf(dec, EVENT + kind + "\n" + DATA + d + "\n\n") == if decoded.Event? then [decoded.event] else []
  {
    var a, b := EVENT + kind, DATA + d;
    assert OneLine(a) && OneLine(b);
    ThreeLines(a, b);
    assert EVENT + kind + "\n" + DATA + d + "\n\n" == a + "\n" + b + "\n\n";
    ReadThree(dec, None, a, b);
    TypeLine(dec, None, kind);
    DataLine(dec, Trim(kind), d);
  }

  /** The same from the text on the wire, for data without line feeds. */
  lemma HeadTextIsRead(dec: Decoder, d: string)
    requires forall i :: 0 <= i < |d| ==> d[i] != '\n'
    ensures EventsOf(dec, "event: head" + "\ndata: " + d + "\n\n")
         == if dec.head(d).Some? then [Head(dec.head(d).value)] else []
  {
    HeadLiteral();
    TextIsRead(dec, "head", d);
    Spelled("event: head", d);
  }

  lemma AttributesTextIsRead(dec: Decoder, d: string)
    requires forall i :: 0 <= i < |d| ==> d[i] != '\n'
    ensures EventsOf(dec, "event: payload_attributes" + "\ndata: " + d + "\n\n")
         == if dec.attributes(d).Some? then [Attributes(dec.attributes(d).value)] else []
  {
    AttributesLiteral();
    TextIsRead(dec, "payload_attributes", d);
    Spelled("event: payload_attributes", d);
  }

  lemma BlockLines(kind: string, d: string)
    requires OneLine(kind) && OneLine(d)
    ensures TextLines(EVENT + kind + "\n" + DATA + d) == [StripReturn(EVENT + kind), DATA + d]
  {
    var a, b := EVENT + kind, DATA + d;
    assert OneLine(a) && OneLine(b);
    assert EVENT + kind + "\n" + DATA + d == a + [NEWLINE] + b;
    SplitFirst(a, b);
    SplitNone(b);
    assert [a] + [] == [a];
    assert StripReturns([a]) == [StripReturn(a)] by { assert [a][..0] == []; }
  }

  lemma BlockIsParsed(dec: Decoder, kind: string, d: string)
    requires OneLine(kind) && OneLine(d)
    ensures ParseBlock(dec, EVENT + kind + "\n" + DATA + d)
         == if Trim(d) == "" then None
            else match Decode(dec, Trim(kind), Trim(d))
              case UnknownType => None
              case Malformed => Some(Err(MalformedData))
              case Event(e) => Some(Ok(e))
  {
    BlockLines(kind, d);
    CollectTwo(StripReturn(EVENT + kind), DATA + d);
    AddTypeLine(Fields(None, ""), kind);
    FirstData(Some(Trim(kind)), d);
  }

  lemma FirstData(kind: Option<string>, d: string)
    ensures AddLine(Fields(kind, ""), DATA + d) == Fields(kind, Trim(d))
  {
    var line := DATA + d;
    assert line[|DATA|..] == d && EVENT[0] == 'e' && line[0] == 'd';
    assert "" + "" + Trim(d) == Trim(d);
  }

  /** The block parser on a head message: the event, or an error where the line reader has nothing; a
      message whose data is blank is no event to it. */
  lemma HeadBlockIsParsed(dec: Decoder, d: string)
    requires forall i :: 0 <= i < |d| ==> d[i] != '\n'
    ensures ParseBlock(dec, "event: head" + "\ndata: " + d)
         == if Trim(d) == "" then None
            else if dec.head(Trim(d)).Some? then Some(Ok(Head(dec.head(Trim(d)).value)))
            else Some(Err(MalformedData))
  {
    HeadLiteral();
    BlockIsParsed(dec, "head", d);
    Spelled("event: head", d);
  }

  lemma AttributesBlockIsParsed(dec: Decoder, d: string)
    requires forall i :: 0 <= i < |d| ==> d[i] != '\n'
    ensures ParseBlock(dec, "event: payload_attributes" + "\ndata: " + d)
         == if Trim(d) == "" then None
            else if dec.attributes(Trim(d)).Some? then Some(Ok(Attributes(dec.attributes(Trim(d)).value)))
            else Some(Err(MalformedData))
  {
    AttributesLiteral();
    BlockIsParsed(dec, "payload_attributes", d);
    Spelled("event: payload_attributes", d);
  }

  lemma OtherBlocksAreNothing(dec: Decoder, kind: string, d: string)
    requires OneLine(kind) && (forall i :: 0 <= i < |d| ==> d[i] != '\n')
    requires Trim(kind) != "head" && Trim(kind) != "payload_attributes"
    ensures ParseBlock(dec, "event: " + kind + "\ndata: " + d) == None
  {
    BlockIsParsed(dec, kind, d);
    Spelled("event: " + kind, d);
  }

  /** Data lines, none of them blank, as the block parser joins them. */
  function Joined(data: seq<string>): string {
    if data == [] then ""
    else if |data| == 1 then Trim(data[0])
    else Joined(data[..|data| - 1]) + " " + Trim(data[|data| - 1])
  }

  function DataLines(data: seq<string>): seq<string> {
    if data == [] then [] else DataLines(data[..|data| - 1]) + ["data: " + data[|data| - 1]]
  }

  lemma AddDataTo(fields: Fields, d: string)
    ensures AddLine(fields, "data: " + d)
         == Fields(fields.kind, if fields.data == "" then Trim(d) else fields.data + " " + Trim(d))
  {
    var line := DATA + d;
    assert line[|DATA|..] == d && EVENT[0] == 'e' && line[0] == 'd';
    assert "" + "" + Trim(d) == Trim(d);
  }

  lemma CollectOneMore(lines: seq<string>, line: string)
    ensures Collect(lines + [line]) == AddLine(Collect(lines), line)
  {
    assert (lines + [line])[..|lines|] == lines;
  }

  /** After any lines without data the last type line decides the type, and the data lines that follow are
      joined by single spaces. */
  lemma {:induction false} LastTypeAndJoinedData(before: seq<string>, kind: string, data: seq<string>)
    requires Collect(before).data == ""
    requires forall d :: d in data ==> Trim(d) != ""
    ensures Collect(before + ["event: " + kind] + DataLines(data)) == Fields(Some(Trim(kind)), Joined(data))
    ensures data != [] ==> Joined(data) != ""
  {
    var typed := before + ["event: " + kind];
    if data == [] {
      assert typed + [] == typed;
      CollectOneMore(before, "event: " + kind);
      assert (EVENT + kind)[|EVENT|..] == kind;
    } else {
      var n := |data| - 1;
      LastTypeAndJoinedData(before, kind, data[..n]);
      assert typed + DataLines(data) == (typed + DataLines(data[..n])) + ["data: " + data[n]];
      CollectOneMore(typed + DataLines(data[..n]), "data: " + data[n]);
      AddDataTo(Fields(Some(Trim(kind)), Joined(data[..n])), data[n]);
      assert data[n] in data;
    }
  }

  /** A type line among the data lines replaces the type and leaves the data. */
  lemma TypeLineReplaces(lines: seq<string>, kind: string)
    ensures Collect(lines + ["event: " + kind]) == Fields(Some(Trim(kind)), Collect(lines).data)
  {
    CollectOneMore(lines, "event: " + kind);
    assert (EVENT + kind)[|EVENT|..] == kind;
  }
}
