/** Printing events and reading them back through the line reader. */
module SseRoundTrip {
  import opened Entities
  import opened SseLines

  datatype Noise = Blank | Comment(text: string)

  /** One message as it may appear on the wire: anything the reader skips, the type line, more of that,
      the data line and the blank line that ends the message. */
  datatype Item = Item(before: seq<Noise>, kind: string, between: seq<Noise>, data: string)

  function NoiseLine(n: Noise): string {
    if n.Blank? then "" else ":" + n.text
  }

  function NoiseLines(ns: seq<Noise>): seq<string> {
    if ns == [] then [] else NoiseLines(ns[..|ns| - 1]) + [NoiseLine(ns[|ns| - 1])]
  }

  function ItemLines(item: Item): seq<string> {
    NoiseLines(item.before) + [EVENT + item.kind] + NoiseLines(item.between) + [DATA + item.data] + [""]
  }

  function Print(items: seq<Item>): seq<string> {
    if items == [] then [] else Print(items[..|items| - 1]) + ItemLines(items[|items| - 1])
  }

  /** The event of an item, by the decoder of its type. */
  function ItemMeaning(dec: Decoder, item: Item): seq<BeaconEvent> {
    if Trim(item.kind) == "head" && dec.head(item.data).Some? then [Head(dec.head(item.data).value)]
    else if Trim(item.kind) == "payload_attributes" && dec.attributes(item.data).Some? then
      [Attributes(dec.attributes(item.data).value)]
    else []
  }

  /** The events of the items of known type whose data decodes, in order. */
  function Meaning(dec: Decoder, items: seq<Item>): seq<BeaconEvent> {
    if items == [] then []
    else
      var last := items[|items| - 1];
      Meaning(dec, items[..|items| - 1]) + ItemMeaning(dec, last)
  }

  predicate Quiet(n: Noise) {
    n.Comment? ==> OneLine(n.text)
  }

  predicate Printable(item: Item) {
    && OneLine(item.kind) && OneLine(item.data)
    && (forall n :: n in item.before ==> Quiet(n))
    && (forall n :: n in item.between ==> Quiet(n))
  }

  lemma {:induction false} NoiseIsSkipped(dec: Decoder, current: Option<string>, ns: seq<Noise>)
    ensures ProcessLines(dec, current, NoiseLines(ns)) == Parsed(current, [])
  {
    if ns != [] {
      NoiseIsSkipped(dec, current, ns[..|ns| - 1]);
      ProcessOneMore(dec, current, NoiseLines(ns[..|ns| - 1]), NoiseLine(ns[|ns| - 1]));
    }
  }

  lemma TypeLine(dec: Decoder, current: Option<string>, kind: string)
    ensures ProcessLine(dec, current, EVENT + kind) == Parsed(Some(Trim(kind)), [])
  {
  }

  lemma DataLine(dec: Decoder, kind: string, data: string)
    ensures var decoded := Decode(dec, kind, data);
            ProcessLine(dec, Some(kind), DATA + data) == Parsed(None, if decoded.Event? then [decoded.event] else [])
  {
  }

  lemma ItemIsRead(dec: Decoder, current: Option<string>, item: Item)
    ensures var decoded := Decode(dec, Trim(item.kind), item.data);
            ProcessLines(dec, current, ItemLines(item)) == Parsed(None, if decoded.Event? then [decoded.event] else [])
  {
    var a := NoiseLines(item.before);
    var b := a + [EVENT + item.kind];
    var c := b + NoiseLines(item.between);
    NoiseIsSkipped(dec, current, item.before);
    ProcessOneMore(dec, current, a, EVENT + item.kind);
    TypeLine(dec, current, item.kind);
    ProcessConcat(dec, current, b, NoiseLines(item.between));
    NoiseIsSkipped(dec, Some(Trim(item.kind)), item.between);
    ProcessOneMore(dec, current, c, DATA + item.data);
    DataLine(dec, Trim(item.kind), item.data);
    ProcessOneMore(dec, current, c + [DATA + item.data], "");
  }

  /** Reading what was printed gives exactly the meaning, with no event type left pending. */
  lemma {:induction false} PrintedLinesAreRead(dec: Decoder, items: seq<Item>)
    ensures ProcessLines(dec, None, Print(items)) == Parsed(None, Meaning(dec, items))
  {
    if items != [] {
      var n := |items| - 1;
      PrintedLinesAreRead(dec, items[..n]);
      ProcessConcat(dec, None, Print(items[..n]), ItemLines(items[n]));
      ItemIsRead(dec, None, items[n]);
    }
  }

  lemma {:induction false} NoiseIsOneLine(ns: seq<Noise>)
    requires forall n :: n in ns ==> Quiet(n)
    ensures forall l :: l in NoiseLines(ns) ==> OneLine(l)
  {
    if ns != [] {
      NoiseIsOneLine(ns[..|ns| - 1]);
      assert Quiet(ns[|ns| - 1]) && OneLine(NoiseLine(ns[|ns| - 1]));
    }
  }

  lemma {:induction false} PrintedIsOneLine(items: seq<Item>)
    requires forall it :: it in items ==> Printable(it)
    ensures forall l :: l in Print(items) ==> OneLine(l)
  {
    if items != [] {
      var last := items[|items| - 1];
      PrintedIsOneLine(items[..|items| - 1]);
      assert Printable(last);
      NoiseIsOneLine(last.before);
      NoiseIsOneLine(last.between);
    }
  }

  /** Round trip: for any messages without newlines inside their parts, any comments and blank lines
      around them, and the text cut into chunks anyhow, a connection that delivers the printed text
      handles exactly the messages' events, and keeps neither text nor an event type. */
  lemma RoundTrip(dec: Decoder, items: seq<Item>, chunks: seq<Result<string, string>>)
    requires forall it :: it in items ==> Printable(it)
    requires Received(chunks) == Unlines(Print(items))
    ensures EventsOf(dec, Received(chunks)) == Meaning(dec, items)
    ensures SplitLines(Received(chunks)).rest == ""
    ensures ProcessLines(dec, None, SplitLines(Received(chunks)).lines).current == None
  {
    PrintedIsOneLine(items);
    SplitOfUnlines(Print(items), "");
    assert Unlines(Print(items)) + "" == Unlines(Print(items));
    PrintedLinesAreRead(dec, items);
  }
}
