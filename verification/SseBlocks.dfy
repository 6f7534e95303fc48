/** The gateway's reading of the same stream, block by block (crates/gateway/src/beacon/events/mod.rs).
    `SseByteStream` searches its buffer for windows of `width` items equal to a delimiter and drops
    `width` items after each.  The source documents a blank-line delimiter but writes a width of 4 next
    to a delimiter of 2; both values are parameters here. */
module SseBlocks {
  import opened Entities

  /** What polling the inner byte stream gives. */
  datatype Polled<T, Error> = NotReady | Chunk(data: seq<T>) | Failed(error: Error) | Ended

  datatype Poll<Item> = Pending | Ready(item: Option<Item>)

  predicate WindowAt<T(==)>(width: nat, delim: seq<T>, buffer: seq<T>, i: nat) {
    i + width <= |buffer| && buffer[i..i + width] == delim
  }

  /** The first matching window at or after `from`; None when there is none. */
  function Find<T(==)>(width: nat, delim: seq<T>, buffer: seq<T>, from: nat): (p: Option<nat>)
    ensures p.Some? ==> from <= p.value && p.value + width <= |buffer|
    decreases |buffer| - from
  {
    if from + width > |buffer| then None
    else if WindowAt(width, delim, buffer, from) then Some(from)
    else if from == |buffer| then None
    else Find(width, delim, buffer, from + 1)
  }

  lemma {:induction false} FindIsFirst<T>(width: nat, delim: seq<T>, buffer: seq<T>, from: nat)
    ensures var p := Find(width, delim, buffer, from);
            && (p.Some? ==> WindowAt(width, delim, buffer, p.value)
                            && forall i: nat :: from <= i < p.value ==> !WindowAt(width, delim, buffer, i))
            && (p.None? ==> forall i: nat :: from <= i ==> !WindowAt(width, delim, buffer, i))
    decreases |buffer| - from
  {
    if from + width <= |buffer| && from < |buffer| { FindIsFirst(width, delim, buffer, from + 1); }
  }

  datatype Framed<T> = Framed(blocks: seq<seq<T>>, rest: seq<T>)

  function Block<T>(block: seq<T>): seq<seq<T>> {
    if block == [] then [] else [block]
  }

  /** One more item: it completes a block exactly when the input since the last one now ends in a delimiter. */
  function Push<T(==)>(width: nat, delim: seq<T>, f: Framed<T>, item: T): Framed<T> {
    var rest := f.rest + [item];
    if |rest| >= width && WindowAt(width, delim, rest, |rest| - width)
    then Framed(f.blocks + Block(rest[..|rest| - width]), [])
    else Framed(f.blocks, rest)
  }

  /** The complete blocks of an input, empty ones left out, and what follows the last delimiter. */
  function Frames<T(==)>(width: nat, delim: seq<T>, input: seq<T>): Framed<T> {
    if input == [] then Framed([], [])
    else Push(width, delim, Frames(width, delim, input[..|input| - 1]), input[|input| - 1])
  }

  lemma WindowsOfFront<T>(width: nat, delim: seq<T>, a: seq<T>, b: seq<T>, i: nat)
    requires i + width <= |a|
    ensures WindowAt(width, delim, a, i) <==> WindowAt(width, delim, a + b, i)
  {
    assert (a + b)[i..i + width] == a[i..i + width];
  }

  ghost predicate NoWindow<T>(width: nat, delim: seq<T>, buffer: seq<T>) {
    forall i: nat :: !WindowAt(width, delim, buffer, i)
  }

  lemma {:induction false} NoWindowNoFrames<T>(width: nat, delim: seq<T>, buffer: seq<T>)
    requires width > 0 && NoWindow(width, delim, buffer)
    ensures Frames(width, delim, buffer) == Framed([], buffer)
  {
    if buffer != [] {
      var front, last := buffer[..|buffer| - 1], buffer[|buffer| - 1];
      assert buffer == front + [last];
      forall i: nat ensures !WindowAt(width, delim, front, i) {
        if i + width <= |front| { WindowsOfFront(width, delim, front, [last], i); }
      }
      NoWindowNoFrames(width, delim, front);
    }
  }

  /** No complete block is ever left over. */
  lemma {:induction false} RestHasNoWindow<T>(width: nat, delim: seq<T>, input: seq<T>)
    requires width > 0
    ensures NoWindow(width, delim, Frames(width, delim, input).rest)
  {
    if input != [] {
      var rest, last := Frames(width, delim, input[..|input| - 1]).rest, input[|input| - 1];
      RestHasNoWindow(width, delim, input[..|input| - 1]);
      if Frames(width, delim, input).rest != [] {
        forall i: nat ensures !WindowAt(width, delim, rest + [last], i) {
          if i + width <= |rest| { WindowsOfFront(width, delim, rest, [last], i); }
        }
      }
    }
  }

  lemma PushAfter<T>(width: nat, delim: seq<T>, blocks: seq<seq<T>>, f: Framed<T>, item: T)
    ensures var pushed := Push(width, delim, f, item);
            Push(width, delim, Framed(blocks + f.blocks, f.rest), item) == Framed(blocks + pushed.blocks, pushed.rest)
  {
    var rest := f.rest + [item];
    if |rest| >= width {
      var block := Block(rest[..|rest| - width]);
      assert (blocks + f.blocks) + block == blocks + (f.blocks + block);
    }
  }

  lemma FrameOneMore<T>(width: nat, delim: seq<T>, input: seq<T>, item: T)
    ensures Frames(width, delim, input + [item]) == Push(width, delim, Frames(width, delim, input), item)
  {
    assert (input + [item])[..|input|] == input;
  }

  /** Framing what is left over together with more input continues the framing of the whole, wherever
      the input was cut, inside a delimiter included. */
  lemma {:induction false} FramesContinue<T>(width: nat, delim: seq<T>, a: seq<T>, b: seq<T>)
    requires width > 0
    ensures var first := Frames(width, delim, a);
            var left := Frames(width, delim, first.rest + b);
            Frames(width, delim, a + b) == Framed(first.blocks + left.blocks, left.rest)
  {
    var first := Frames(width, delim, a);
    if b == [] {
      RestHasNoWindow(width, delim, a);
      NoWindowNoFrames(width, delim, first.rest);
      assert a + b == a && first.rest + b == first.rest && first.blocks + [] == first.blocks;
    } else {
      var front, last := b[..|b| - 1], b[|b| - 1];
      FramesContinue(width, delim, a, front);
      FrameOneMore(width, delim, a + front, last);
      FrameOneMore(width, delim, first.rest + front, last);
      PushAfter(width, delim, first.blocks, Frames(width, delim, first.rest + front), last);
      assert (a + front) + [last] == a + b && (first.rest + front) + [last] == first.rest + b;
    }
  }

  lemma PushBlock<T>(width: nat, delim: seq<T>, front: seq<T>, item: T, p: nat)
    requires |front| + 1 == p + width && WindowAt(width, delim, front + [item], p)
    ensures Push(width, delim, Framed([], front), item) == Framed(Block((front + [item])[..p]), [])
  {
    assert [] + Block((front + [item])[..p]) == Block((front + [item])[..p]);
  }

  lemma FrontHasNoWindow<T>(width: nat, delim: seq<T>, front: seq<T>, more: seq<T>, p: nat)
    requires |front| + 1 == p + width
    requires forall i: nat :: i < p ==> !WindowAt(width, delim, front + more, i)
    ensures NoWindow(width, delim, front)
  {
    forall i: nat ensures !WindowAt(width, delim, front, i) {
      if i + width <= |front| { WindowsOfFront(width, delim, front, more, i); }
    }
  }

  lemma HeadIsOneBlock<T>(width: nat, delim: seq<T>, front: seq<T>, item: T, more: seq<T>, p: nat)
    requires width > 0 && |front| + 1 == p + width && WindowAt(width, delim, (front + [item]) + more, p)
    requires forall i: nat :: i < p ==> !WindowAt(width, delim, front + ([item] + more), i)
    ensures Frames(width, delim, front + [item]) == Framed(Block((front + [item])[..p]), [])
  {
    WindowsOfFront(width, delim, front + [item], more, p);
    PushBlock(width, delim, front, item, p);
    FrontHasNoWindow(width, delim, front, [item] + more, p);
    NoWindowNoFrames(width, delim, front);
    FrameOneMore(width, delim, front, item);
  }

  lemma FramesAfter<T>(width: nat, delim: seq<T>, head: seq<T>, block: seq<seq<T>>, more: seq<T>)
    requires width > 0 && Frames(width, delim, head) == Framed(block, [])
    ensures var tail := Frames(width, delim, more);
            Frames(width, delim, head + more) == Framed(block + tail.blocks, tail.rest)
  {
    FramesContinue(width, delim, head, more);
    assert [] + more == more;
  }

  /** Cutting at the first window: the block before it, then the blocks of what follows it. */
  lemma FramesFirst<T>(width: nat, delim: seq<T>, buffer: seq<T>, p: nat)
    requires width > 0 && WindowAt(width, delim, buffer, p)
    requires forall i: nat :: i < p ==> !WindowAt(width, delim, buffer, i)
    ensures var tail := Frames(width, delim, buffer[p + width..]);
            Frames(width, delim, buffer) == Framed(Block(buffer[..p]) + tail.blocks, tail.rest)
  {
    var front, item, more := buffer[..p + width - 1], buffer[p + width - 1], buffer[p + width..];
    var head := front + [item];
    assert buffer == head + more && buffer == front + ([item] + more) && head[..p] == buffer[..p];
    HeadIsOneBlock(width, delim, front, item, more, p);
    FramesAfter(width, delim, head, Block(head[..p]), more);
  }

  /** The event of a block, if any: empty blocks are not parsed. */
  function EventOfBlock<T(==), Item>(parse: seq<T> -> Option<Item>, block: seq<T>): seq<Item> {
    if block != [] && parse(block).Some? then [parse(block).value] else []
  }

  /** The parsed events of some blocks, in order. */
  function ParseAll<T, Item>(parse: seq<T> -> Option<Item>, blocks: seq<seq<T>>): seq<Item> {
    if blocks == [] then []
    else
      var last := parse(blocks[|blocks| - 1]);
      ParseAll(parse, blocks[..|blocks| - 1]) + if last.Some? then [last.value] else []
  }

  lemma {:induction false} ParseAllConcat<T, Item>(parse: seq<T> -> Option<Item>, a: seq<seq<T>>, b: seq<seq<T>>)
    ensures ParseAll(parse, a + b) == ParseAll(parse, a) + ParseAll(parse, b)
  {
    if b == [] {
      assert a + b == a;
    } else {
      var n := |b| - 1;
      assert (a + b)[..|a + b| - 1] == a + b[..n];
      ParseAllConcat(parse, a, b[..n]);
    }
  }

  lemma ParseOneMore<T, Item>(parse: seq<T> -> Option<Item>, blocks: seq<seq<T>>, block: seq<T>)
    ensures ParseAll(parse, blocks + Block(block))
         == ParseAll(parse, blocks) + EventOfBlock(parse, block)
  {
    if block == [] {
      assert blocks + [] == blocks;
    } else {
      assert (blocks + [block])[..|blocks|] == blocks;
    }
  }

  /** The drain loop part way: `cut` has been parsed into `done`, `buffer` is still to be searched, and the
      blocks of both are those of `input`. */
  ghost predicate Draining<T, Item>(width: nat, delim: seq<T>, parse: seq<T> -> Option<Item>,
                                        input: seq<T>, cut: seq<seq<T>>, buffer: seq<T>, done: seq<Item>)
  {
    && Frames(width, delim, input) == Framed(cut + Frames(width, delim, buffer).blocks,
                                             Frames(width, delim, buffer).rest)
    && done == ParseAll(parse, cut)
  }

  lemma CutOne<T, Item>(width: nat, delim: seq<T>, parse: seq<T> -> Option<Item>,
                        input: seq<T>, cut: seq<seq<T>>, buffer: seq<T>, done: seq<Item>, p: nat)
    requires width > 0 && Draining(width, delim, parse, input, cut, buffer, done)
             && Find(width, delim, buffer, 0) == Some(p)
    ensures var block := buffer[..p];
            Draining(width, delim, parse, input, cut + Block(block), buffer[p + width..],
                     done + EventOfBlock(parse, block))
  {
    assert Frames(width, delim, input)
        == Framed(cut + Block(buffer[..p]) + Frames(width, delim, buffer[p + width..]).blocks,
                  Frames(width, delim, buffer[p + width..]).rest) by {
      FindIsFirst(width, delim, buffer, 0);
      FramesFirst(width, delim, buffer, p);
      var block, tail := Block(buffer[..p]), Frames(width, delim, buffer[p + width..]).blocks;
      assert cut + (block + tail) == (cut + block) + tail;
    }
    ParseOneMore(parse, cut, buffer[..p]);
  }

  lemma CutNone<T, Item>(width: nat, delim: seq<T>, parse: seq<T> -> Option<Item>,
                         input: seq<T>, cut: seq<seq<T>>, buffer: seq<T>, done: seq<Item>)
    requires width > 0 && Draining(width, delim, parse, input, cut, buffer, done) && Find(width, delim, buffer, 0).None?
    ensures Frames(width, delim, input) == Framed(cut, buffer)
            && done == ParseAll(parse, Frames(width, delim, input).blocks)
  {
    FindIsFirst(width, delim, buffer, 0);
    NoWindowNoFrames(width, delim, buffer);
    assert cut + [] == cut;
  }

  /** Everything that is still to come: the events framed in the buffer and the unread input, with
      transport errors in their places, up to the end of the input. */
  function Future<T(==), Event, Error>(width: nat, delim: seq<T>, parse: seq<T> -> Option<Result<Event, Error>>,
                                       buffer: seq<T>, inner: seq<Polled<T, Error>>): seq<Result<Event, Error>>
    requires width > 0
    decreases |inner|
  {
    if inner == [] then []
    else match inner[0]
      case NotReady => Future(width, delim, parse, buffer, inner[1..])
      case Chunk(data) =>
        var framed := Frames(width, delim, buffer + data);
        ParseAll(parse, framed.blocks) + Future(width, delim, parse, framed.rest, inner[1..])
      case Failed(error) => [Err(error)] + Future(width, delim, parse, buffer, inner[1..])
      case Ended => []
  }

  ghost predicate HasEnd<T, Error>(inner: seq<Polled<T, Error>>) {
    exists i :: 0 <= i < |inner| && inner[i].Ended?
  }

  /** What one poll may take from the inner stream: data, and at most one last answer of another kind. */
  ghost predicate OneTurn<T, Error>(asked: seq<Polled<T, Error>>) {
    forall i :: 0 <= i < |asked| - 1 ==> asked[i].Chunk?
  }

  ghost predicate AllChunks<T, Error>(asked: seq<Polled<T, Error>>) {
    forall i :: 0 <= i < |asked| ==> asked[i].Chunk?
  }

  /** What one poll did: an event that goes out is the next one owed, and the others stay owed; the end comes
      exactly when the inner stream said so, and only when nothing is owed; a poll waits with nothing queued,
      and only when the inner stream made it wait or has nothing more to say.  What it asked was asked in order. */
  ghost predicate Turned<T, Event, Error>(r: Poll<Result<Event, Error>>, asked: seq<Polled<T, Error>>,
                                          owed: seq<Result<Event, Error>>, inner: seq<Polled<T, Error>>,
                                          queued': seq<Result<Event, Error>>, owed': seq<Result<Event, Error>>,
                                          inner': seq<Polled<T, Error>>)
  {
    && (r.Ready? && r.item.Some? ==> owed == [r.item.value] + owed')
    && (r.Ready? && r.item.None? ==> owed == [])
    && (r.Pending? ==> owed' == owed && queued' == [])
    && (r.Pending? ==> asked == inner || (asked != [] && asked[|asked| - 1].NotReady?))
    && (r == Ready(None) <==> asked != [] && asked[|asked| - 1].Ended?)
    && inner == asked + inner' && OneTurn(asked)
  }

  /** A poll part way: nothing is queued, and only data has been asked for. */
  ghost predicate Polling<T, Event, Error>(future: seq<Result<Event, Error>>, owed: seq<Result<Event, Error>>,
                                           input: seq<Polled<T, Error>>, asked: seq<Polled<T, Error>>,
                                           inner: seq<Polled<T, Error>>)
  {
    future == owed && input == asked + inner && AllChunks(asked)
  }

  /** A poll part way, with a text to be framed. */
  ghost predicate Arrived<T, Event, Error>(width: nat, delim: seq<T>, parse: seq<T> -> Option<Result<Event, Error>>,
                                           text: seq<T>, owed: seq<Result<Event, Error>>,
                                           input: seq<Polled<T, Error>>, asked: seq<Polled<T, Error>>,
                                           inner: seq<Polled<T, Error>>)
    requires width > 0
  {
    var framed := Frames(width, delim, text);
    Polling(ParseAll(parse, framed.blocks) + Future(width, delim, parse, framed.rest, inner), owed, input, asked, inner)
  }

  lemma PollingOneMore<T, Event, Error>(future: seq<Result<Event, Error>>, owed: seq<Result<Event, Error>>,
                                        input: seq<Polled<T, Error>>, asked: seq<Polled<T, Error>>,
                                        inner: seq<Polled<T, Error>>)
    requires Polling(future, owed, input, asked, inner) && inner != []
    ensures input == (asked + [inner[0]]) + inner[1..] && OneTurn(asked + [inner[0]])
    ensures inner[0].Chunk? ==> AllChunks(asked + [inner[0]])
  {
  }

  lemma ChunkArrives<T, Event, Error>(width: nat, delim: seq<T>, parse: seq<T> -> Option<Result<Event, Error>>,
                                      buffer: seq<T>, owed: seq<Result<Event, Error>>, input: seq<Polled<T, Error>>,
                                      asked: seq<Polled<T, Error>>, inner: seq<Polled<T, Error>>)
    requires width > 0 && inner != [] && inner[0].Chunk?
    requires Polling(Future(width, delim, parse, buffer, inner), owed, input, asked, inner)
    ensures Arrived(width, delim, parse, buffer + inner[0].data, owed, input, asked + [inner[0]], inner[1..])
  {
    PollingOneMore(owed, owed, input, asked, inner);
  }

  /** The turn of a poll that meets an answer other than data. */
  lemma TurnsBy<T, Event, Error>(width: nat, delim: seq<T>, parse: seq<T> -> Option<Result<Event, Error>>,
                                 buffer: seq<T>, owed: seq<Result<Event, Error>>, input: seq<Polled<T, Error>>,
                                 asked: seq<Polled<T, Error>>, inner: seq<Polled<T, Error>>,
                                 r: Poll<Result<Event, Error>>)
    requires width > 0 && inner != [] && !inner[0].Chunk?
    requires Polling(Future(width, delim, parse, buffer, inner), owed, input, asked, inner)
    requires r == if inner[0].NotReady? then Pending else if inner[0].Ended? then Ready(None)
                  else Ready(Some(Err(inner[0].error)))
    ensures Turned(r, asked + [inner[0]], owed, input, [], [] + Future(width, delim, parse, buffer, inner[1..]),
                   inner[1..])
  {
    var later := Future(width, delim, parse, buffer, inner[1..]);
    assert [] + later == later;
    PollingOneMore(owed, owed, input, asked, inner);
  }

  /** The turn of a poll that finds the inner stream with nothing more to say. */
  lemma TurnsDry<T, Event, Error>(future: seq<Result<Event, Error>>, owed: seq<Result<Event, Error>>,
                                  input: seq<Polled<T, Error>>, asked: seq<Polled<T, Error>>)
    requires Polling(future, owed, input, asked, [])
    ensures Turned(Pending, asked, owed, input, [], [] + future, [])
  {
    assert asked + [] == asked && [] + future == future;
  }

  /** The turn of a poll that has an event to give. */
  lemma TurnsWith<T, Event, Error>(item: Result<Event, Error>, queued': seq<Result<Event, Error>>,
                                   later: seq<Result<Event, Error>>, owed: seq<Result<Event, Error>>,
                                   input: seq<Polled<T, Error>>, asked: seq<Polled<T, Error>>,
                                   inner: seq<Polled<T, Error>>)
    requires Polling([item] + (queued' + later), owed, input, asked, inner)
    ensures Turned(Ready(Some(item)), asked, owed, input, queued', queued' + later, inner)
  {
  }

  lemma EndIsAhead<T, Error>(input: seq<Polled<T, Error>>, asked: seq<Polled<T, Error>>, inner: seq<Polled<T, Error>>)
    requires input == asked + inner && OneTurn(asked)
    ensures HasEnd(input) <==> (asked != [] && asked[|asked| - 1].Ended?) || HasEnd(inner)
  {
    if asked != [] && asked[|asked| - 1].Ended? { assert input[|asked| - 1].Ended?; }
    if HasEnd(inner) {
      var i :| 0 <= i < |inner| && inner[i].Ended?;
      assert input[|asked| + i].Ended?;
    }
    if HasEnd(input) {
      var i :| 0 <= i < |input| && input[i].Ended?;
      if i >= |asked| { assert inner[i - |asked|].Ended?; }
    }
  }

  class SseByteStream<T(==), Event(==), Error(==)> {
    const width: nat
    const delim: seq<T>
    const parse: seq<T> -> Option<Result<Event, Error>>
    var inner: seq<Polled<T, Error>>
    var buffer: seq<T>
    var pendingEvents: seq<Result<Event, Error>>

    constructor (width: nat, delim: seq<T>, parse: seq<T> -> Option<Result<Event, Error>>, inner: seq<Polled<T, Error>>)
      requires width > 0
      ensures this.width == width && this.delim == delim && this.parse == parse && this.inner == inner
      ensures buffer == [] && pendingEvents == []
    {
      this.width, this.delim, this.parse, this.inner := width, delim, parse, inner;
      buffer, pendingEvents := [], [];
    }

    ghost predicate Valid()
      reads this
    {
      width > 0
    }

    /** The events queued and those still to come. */
    ghost function Owed(): seq<Result<Event, Error>>
      reads this
      requires Valid()
    {
      pendingEvents + Future(width, delim, parse, buffer, inner)
    }

    method DrainBuffer()
      requires Valid()
      modifies this`buffer, this`pendingEvents
      ensures buffer == Frames(width, delim, old(buffer)).rest
      ensures pendingEvents == old(pendingEvents) + ParseAll(parse, Frames(width, delim, old(buffer)).blocks)
    {
      ghost var input, queued := buffer, pendingEvents;
      ghost var cut: seq<seq<T>>, done: seq<Result<Event, Error>> := [], [];
      assert [] + Frames(width, delim, input).blocks == Frames(width, delim, input).blocks;
      while true
        invariant Draining(width, delim, parse, input, cut, buffer, done)
        invariant pendingEvents == queued + done
        decreases |buffer|
      {
        var pos := Find(width, delim, buffer, 0);
        if pos.None? {
          CutNone(width, delim, parse, input, cut, buffer, done);
          return;
        }
        CutOne(width, delim, parse, input, cut, buffer, done, pos.value);
        var complete := buffer[..pos.value];
        buffer := buffer[pos.value + width..];
        cut, done := cut + Block(complete), done + EventOfBlock(parse, complete);
        if complete == [] { continue; }
        var event := parse(complete);
        if event.Some? { pendingEvents := pendingEvents + [event.value]; }
      }
    }

    /** The front of the queue goes out, ahead of whatever comes later. */
    method PopPending(ghost later: seq<Result<Event, Error>>) returns (event: Option<Result<Event, Error>>)
      modifies this`pendingEvents
      ensures event.None? ==> old(pendingEvents) == [] && pendingEvents == []
      ensures event.Some? ==> old(pendingEvents) != [] && event.value == old(pendingEvents)[0]
      ensures event.Some? ==> old(pendingEvents) + later == [event.value] + (pendingEvents + later)
    {
      if pendingEvents == [] { return None; }
      event := Some(pendingEvents[0]);
      pendingEvents := pendingEvents[1..];
    }

    /** A text that arrived while nothing was queued: the first event it completes, if any, goes out. */
    method TakeText(text: seq<T>, ghost owed: seq<Result<Event, Error>>, ghost input: seq<Polled<T, Error>>,
                    ghost asked: seq<Polled<T, Error>>)
      returns (event: Option<Result<Event, Error>>)
      requires Valid() && pendingEvents == []
      requires Arrived(width, delim, parse, text, owed, input, asked, inner)
      modifies this`buffer, this`pendingEvents
      ensures event.None? ==> pendingEvents == []
      ensures event.None? ==> Polling(Future(width, delim, parse, buffer, inner), owed, input, asked, inner)
      ensures event.Some? ==> Turned(Ready(event), asked, owed, input, pendingEvents, Owed(), inner)
    {
      ghost var later := Future(width, delim, parse, Frames(width, delim, text).rest, inner);
      buffer := text;
      DrainBuffer();
      assert Polling(pendingEvents + later, owed, input, asked, inner);
      event := PopPending(later);
      if event.Some? {
        TurnsWith(event.value, pendingEvents, later, owed, input, asked, inner);
      } else {
        assert [] + later == later;
      }
    }

    /** One poll.  Queued events go out first, without touching the inner stream; then the inner stream is
        asked for data until there is an event to give, or it has none to add. */
    method PollNext() returns (r: Poll<Result<Event, Error>>, ghost asked: seq<Polled<T, Error>>)
      requires Valid()
      modifies this
      ensures Valid()
      ensures Turned(r, asked, old(Owed()), old(inner), pendingEvents, Owed(), inner)
      ensures old(pendingEvents) != [] ==> asked == [] && r == Ready(Some(old(pendingEvents)[0]))
    {
      ghost var owed, input, later := Owed(), inner, Future(width, delim, parse, buffer, inner);
      asked := [];
      var event := PopPending(later);
      if event.Some? {
        assert Polling([event.value] + (pendingEvents + later), owed, input, [], inner);
        TurnsWith(event.value, pendingEvents, later, owed, input, [], inner);
        return Ready(event), [];
      }
      assert Polling(later, owed, input, [], inner) by { assert [] + later == later; }
      while inner != [] && !inner[0].NotReady?
        invariant pendingEvents == [] && Polling(Future(width, delim, parse, buffer, inner), owed, input, asked, inner)
        decreases |inner|
      {
        match inner[0]
        case Chunk(data) =>
          ChunkArrives(width, delim, parse, buffer, owed, input, asked, inner);
          asked, inner := asked + [inner[0]], inner[1..];
          event := TakeText(buffer + data, owed, input, asked);
          if event.Some? { return Ready(event), asked; }
        case Failed(error) =>
          r := Ready(Some(Err(error)));
          TurnsBy(width, delim, parse, buffer, owed, input, asked, inner, r);
          asked, inner := asked + [inner[0]], inner[1..];
          return;
        case Ended =>
          r := Ready(None);
          TurnsBy(width, delim, parse, buffer, owed, input, asked, inner, r);
          asked, inner := asked + [inner[0]], inner[1..];
          return;
      }
      r := Pending;
      if inner == [] {
        TurnsDry(Future(width, delim, parse, buffer, inner), owed, input, asked);
      } else {
        TurnsBy(width, delim, parse, buffer, owed, input, asked, inner, r);
        asked, inner := asked + [inner[0]], inner[1..];
      }
    }

    /** Nothing more can come out. */
    ghost predicate Exhausted()
      reads this
      requires Valid()
    {
      inner == [] && Owed() == []
    }

    /** How many polls may still have something to do. */
    ghost function Work(): nat
      reads this
      requires Valid()
    {
      |inner| + |Owed()|
    }

    /** The same poll, by the work it does: it ends the stream, or there is less to do, or nothing. */
    method PollOnce() returns (r: Poll<Result<Event, Error>>)
      requires Valid()
      modifies this
      ensures Valid()
      ensures old(Owed()) == (if r.Ready? && r.item.Some? then [r.item.value] else [])
                             + if r == Ready(None) then [] else Owed()
      ensures r != Ready(None) ==> Work() < old(Work()) || Exhausted()
      ensures r == Ready(None) ==> HasEnd(old(inner))
      ensures r != Ready(None) ==> (HasEnd(old(inner)) <==> HasEnd(inner))
    {
      ghost var input := inner;
      ghost var asked;
      r, asked := PollNext();
      EndIsAhead(input, asked, inner);
      if r.Pending? && asked == [] { assert inner == [] && Future(width, delim, parse, buffer, inner) == []; }
    }

    /** Any number of polls: what came out and what is still owed are together what was owed at first.  With
        enough of them everything owed has come out, and the stream has ended exactly if its input does. */
    method PollMany(polls: nat) returns (out: seq<Result<Event, Error>>, ended: bool)
      requires Valid()
      modifies this
      ensures Valid()
      ensures !ended ==> out + Owed() == old(Owed())
      ensures ended ==> out == old(Owed()) && HasEnd(old(inner))
      ensures polls > old(Work()) ==> out == old(Owed()) && (ended <==> HasEnd(old(inner)))
    {
      out, ended := [], false;
      var n := 0;
      ghost var work, input := Work(), inner;
      while n < polls
        invariant Valid() && n <= polls
        invariant out + Owed() == old(Owed())
        invariant n + Work() <= work || Exhausted()
        invariant HasEnd(input) <==> HasEnd(inner)
      {
        ghost var owed := Owed();
        var r := PollOnce();
        ghost var came := if r.Ready? && r.item.Some? then [r.item.value] else [];
        if r == Ready(None) {
          assert out + [] == out;
          return out, true;
        }
        assert out + (came + Owed()) == (out + came) + Owed();
        if r.Ready? { out := out + [r.item.value]; } else { assert out + came == out; }
        n := n + 1;
      }
      if Exhausted() { assert out + [] == out; }
    }
  }

  /** All the data an input delivers, in whatever pieces and with whatever pauses. */
  function Delivered<T, Error>(inner: seq<Polled<T, Error>>): seq<T> {
    if inner == [] then [] else (if inner[0].Chunk? then inner[0].data else []) + Delivered(inner[1..])
  }

  lemma OneChunk<T, Event, Error>(width: nat, delim: seq<T>, parse: seq<T> -> Option<Result<Event, Error>>,
                                  buffer: seq<T>, data: seq<T>, more: seq<T>)
    requires width > 0
    ensures var framed := Frames(width, delim, buffer + data);
            ParseAll(parse, Frames(width, delim, buffer + (data + more)).blocks)
            == ParseAll(parse, framed.blocks) + ParseAll(parse, Frames(width, delim, framed.rest + more).blocks)
  {
    var framed := Frames(width, delim, buffer + data);
    assert buffer + (data + more) == (buffer + data) + more;
    FramesContinue(width, delim, buffer + data, more);
    ParseAllConcat(parse, framed.blocks, Frames(width, delim, framed.rest + more).blocks);
  }

  /** An input without transport errors owes exactly the events of the whole text it delivers: neither
      the cuts nor the pauses matter. */
  lemma {:induction false} CutsDoNotMatter<T, Event, Error>(width: nat, delim: seq<T>,
                                                            parse: seq<T> -> Option<Result<Event, Error>>,
                                                            buffer: seq<T>, inner: seq<Polled<T, Error>>)
    requires width > 0 && NoWindow(width, delim, buffer)
    requires forall i :: 0 <= i < |inner| ==> inner[i].Chunk? || inner[i].NotReady?
    ensures Future(width, delim, parse, buffer, inner)
         == ParseAll(parse, Frames(width, delim, buffer + Delivered(inner)).blocks)
    decreases |inner|
  {
    if inner == [] {
      NoWindowNoFrames(width, delim, buffer);
      assert buffer + [] == buffer;
    } else if inner[0].Chunk? {
      var data, rest := inner[0].data, inner[1..];
      RestHasNoWindow(width, delim, buffer + data);
      CutsDoNotMatter(width, delim, parse, Frames(width, delim, buffer + data).rest, rest);
      OneChunk(width, delim, parse, buffer, data, Delivered(rest));
    } else {
      CutsDoNotMatter(width, delim, parse, buffer, inner[1..]);
      assert [] + Delivered(inner[1..]) == Delivered(inner[1..]);
    }
  }

  /** Searching for windows of one width that equal a literal of another finds nothing, ever; searching
      with the literal's own width finds it wherever it is.  So some input is framed if and only if the
      width is the literal's length. */
  lemma FramingNeedsTheRightWidth<T>(width: nat, delim: seq<T>)
    requires width > 0
    ensures (exists buffer :: Find(width, delim, buffer, 0).Some?) <==> width == |delim|
  {
    if width == |delim| {
      assert delim[0..width] == delim;
      assert Find(width, delim, delim, 0).Some?;
    } else {
      forall buffer ensures Find(width, delim, buffer, 0).None? { FindIsFirst(width, delim, buffer, 0); }
    }
  }

  /** As the source is written, windows of 4 against a literal of 2: whatever arrives, nothing but
      transport errors is ever delivered. */
  lemma {:induction false} AsWrittenOnlyErrors<T, Event, Error>(width: nat, delim: seq<T>,
                                                                parse: seq<T> -> Option<Result<Event, Error>>,
                                                                buffer: seq<T>, inner: seq<Polled<T, Error>>)
    requires width > 0 && width != |delim|
    decreases |inner|
    ensures forall r :: r in Future(width, delim, parse, buffer, inner) ==>
              r.Err? && exists i :: 0 <= i < |inner| && inner[i] == Failed(r.error)
  {
    if inner != [] {
      var rest := inner[1..];
      forall b: seq<T> ensures Frames(width, delim, b) == Framed([], b) { NoWindowNoFrames(width, delim, b); }
      var buffer' := if inner[0].Chunk? then buffer + inner[0].data else buffer;
      AsWrittenOnlyErrors(width, delim, parse, buffer', rest);
      forall r | r in Future(width, delim, parse, buffer, inner)
        ensures r.Err? && exists i :: 0 <= i < |inner| && inner[i] == Failed(r.error)
      {
        if r in Future(width, delim, parse, buffer', rest) {
          var i :| 0 <= i < |rest| && rest[i] == Failed(r.error);
          assert inner[i + 1] == Failed(r.error);
        }
      }
    }
  }
}
