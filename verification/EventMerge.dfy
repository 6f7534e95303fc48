/** Merging the payload-attributes stream and the head stream by polling
    (crates/gateway/src/beacon/events/stream.rs).  A stream is the sequence of answers its successive
    polls get; once that is exhausted it is not ready. */
module EventMerge {
  import opened Entities

  datatype Answer<Event, Error> = NotReady | Next(event: Event) | Failed(error: Error) | Ended

  datatype Poll<Event> = Pending | Yield(event: Event) | Done

  datatype Tagged<Event> = FromAttributes(event: Event) | FromHead(event: Event)

  /** The events among some answers, in order. */
  function Events<Event, Error>(answers: seq<Answer<Event, Error>>): seq<Event> {
    if answers == [] then []
    else Events(answers[..|answers| - 1]) + if answers[|answers| - 1].Next? then [answers[|answers| - 1].event] else []
  }

  function AttributesOf<Event>(out: seq<Tagged<Event>>): seq<Event> {
    if out == [] then []
    else AttributesOf(out[..|out| - 1]) + if out[|out| - 1].FromAttributes? then [out[|out| - 1].event] else []
  }

  function HeadsOf<Event>(out: seq<Tagged<Event>>): seq<Event> {
    if out == [] then []
    else HeadsOf(out[..|out| - 1]) + if out[|out| - 1].FromHead? then [out[|out| - 1].event] else []
  }

  /** The event of at most one answer. */
  function Given<Event, Error>(first: seq<Answer<Event, Error>>): seq<Event> {
    if first != [] && first[0].Next? then [first[0].event] else []
  }

  lemma EventsOneMore<Event, Error>(given: seq<Answer<Event, Error>>, more: seq<Answer<Event, Error>>)
    requires |more| <= 1
    ensures Events(given + more) == Events(given) + Given(more)
  {
    if more == [] {
      assert given + more == given;
    } else {
      assert (given + more)[..|given|] == given;
    }
  }

  function Untagged<Event>(out: seq<Tagged<Event>>): seq<Event> {
    if out == [] then [] else Untagged(out[..|out| - 1]) + [out[|out| - 1].event]
  }

  function Tag<Event>(from: Option<Tagged<Event>>): seq<Tagged<Event>> {
    if from.Some? then [from.value] else []
  }

  lemma TagOneMore<Event>(out: seq<Tagged<Event>>, from: Option<Tagged<Event>>)
    ensures AttributesOf(out + Tag(from))
         == AttributesOf(out) + if from.Some? && from.value.FromAttributes? then [from.value.event] else []
    ensures HeadsOf(out + Tag(from))
         == HeadsOf(out) + if from.Some? && from.value.FromHead? then [from.value.event] else []
    ensures Untagged(out + Tag(from)) == Untagged(out) + if from.Some? then [from.value.event] else []
  {
    if from.Some? { assert (out + [from.value])[..|out|] == out; } else { assert out + [] == out; }
  }

  /** The first answer of a stream, as a list: empty when none has come. */
  function First<Event, Error>(answers: seq<Answer<Event, Error>>): seq<Answer<Event, Error>> {
    if answers == [] then [] else [answers[0]]
  }

  /** A failure of either stream stops the merge; an end only stops it on the head stream. */
  predicate Stops<Event, Error>(answer: Answer<Event, Error>, endStops: bool) {
    answer.Failed? || (endStops && answer.Ended?)
  }

  predicate StopsLast<Event, Error>(given: seq<Answer<Event, Error>>, endStops: bool) {
    given != [] && Stops(given[|given| - 1], endStops)
  }

  ghost predicate NoneStops<Event, Error>(given: seq<Answer<Event, Error>>, endStops: bool) {
    forall i :: 0 <= i < |given| ==> !Stops(given[i], endStops)
  }

  /** The output, tagged with the stream each event came from, is an interleaving of the events given:
      none lost, repeated or reordered. */
  ghost predicate Interleaved<Event, Error>(out: seq<Event>, tagged: seq<Tagged<Event>>,
                                            a: seq<Answer<Event, Error>>, h: seq<Answer<Event, Error>>)
  {
    && out == Untagged(tagged)
    && AttributesOf(tagged) == Events(a) && HeadsOf(tagged) == Events(h)
  }

  lemma InterleavedStep<Event, Error>(out: seq<Event>, emitted: seq<Event>, tagged: seq<Tagged<Event>>,
                                      from: Option<Tagged<Event>>,
                                      a: seq<Answer<Event, Error>>, h: seq<Answer<Event, Error>>,
                                      moreA: seq<Answer<Event, Error>>, moreH: seq<Answer<Event, Error>>)
    requires Interleaved(out, tagged, a, h) && |moreA| <= 1 && |moreH| <= 1
    requires emitted == if from.Some? then [from.value.event] else []
    requires Given(moreA) == if from.Some? && from.value.FromAttributes? then [from.value.event] else []
    requires Given(moreH) == if from.Some? && from.value.FromHead? then [from.value.event] else []
    ensures Interleaved(out + emitted, tagged + Tag(from), a + moreA, h + moreH)
  {
    EventsOneMore(a, moreA);
    EventsOneMore(h, moreH);
    TagOneMore(tagged, from);
  }

  function Least(a: nat, b: nat): nat {
    if a < b then a else b
  }

  /** How far `n` polls that did not end the merge have come: the attributes stream was asked in each, the
      head stream in each in which that gave no event, as long as they had answers. */
  ghost predicate Asked<Event, Error>(n: nat, a: seq<Answer<Event, Error>>, h: seq<Answer<Event, Error>>,
                                      attributes: nat, heads: nat)
  {
    |Events(a)| <= n && |a| == Least(n, attributes) && |h| == Least(n - |Events(a)|, heads)
  }

  lemma AskedStep<Event, Error>(n: nat, a: seq<Answer<Event, Error>>, h: seq<Answer<Event, Error>>,
                                attributes: nat, heads: nat,
                                moreA: seq<Answer<Event, Error>>, moreH: seq<Answer<Event, Error>>)
    requires Asked(n, a, h, attributes, heads)
    requires |moreA| == (if |a| < attributes then 1 else 0)
    requires |moreH| == (if Given(moreA) == [] && |h| < heads then 1 else 0)
    ensures Asked(n + 1, a + moreA, h + moreH, attributes, heads)
  {
    EventsOneMore(a, moreA);
  }

  lemma StopsStep<Event, Error>(given: seq<Answer<Event, Error>>, more: seq<Answer<Event, Error>>, endStops: bool)
    requires NoneStops(given, endStops) && |more| <= 1
    ensures StopsLast(given + more, endStops) <==> StopsLast(more, endStops)
    ensures !StopsLast(more, endStops) ==> NoneStops(given + more, endStops)
    ensures given + more != [] ==> NoneStops((given + more)[..|given + more| - 1], endStops)
  {
    if more == [] { assert given + more == given; }
  }

  /** One poll: the attributes stream is asked first and the head stream only if that gave no event and did
      not fail.  `a` and `h` are the answers given, `from` the event that goes out with its origin. */
  ghost predicate Polled<Event, Error>(attributes: seq<Answer<Event, Error>>, head: seq<Answer<Event, Error>>,
                                               attributes': seq<Answer<Event, Error>>, head': seq<Answer<Event, Error>>,
                                               r: Poll<Event>, from: Option<Tagged<Event>>,
                                               a: seq<Answer<Event, Error>>, h: seq<Answer<Event, Error>>)
  {
    && a == First(attributes) && attributes == a + attributes'
    && h == (if a == [] || a[0].NotReady? || a[0].Ended? then First(head) else []) && head == h + head'
    && Given(a) == (if from.Some? && from.value.FromAttributes? then [from.value.event] else [])
    && Given(h) == (if from.Some? && from.value.FromHead? then [from.value.event] else [])
    && r == (if from.Some? then Yield(from.value.event)
             else if StopsLast(a, false) || StopsLast(h, true) then Done else Pending)
    && (from.Some? ==> !StopsLast(a, false) && !StopsLast(h, true))
  }

  /** What a merge has done: `a` and `h` are the answers the two streams gave of all they had. */
  ghost predicate Merging<Event, Error>(attributes: seq<Answer<Event, Error>>, head: seq<Answer<Event, Error>>, n: nat,
                                        out: seq<Event>, tagged: seq<Tagged<Event>>,
                                        a: seq<Answer<Event, Error>>, h: seq<Answer<Event, Error>>)
  {
    && a <= attributes && h <= head && Interleaved(out, tagged, a, h)
    && NoneStops(a, false) && NoneStops(h, true)
    && Asked(n, a, h, |attributes|, |head|)
  }

  /** The same once it is over: the last answer of one stream stops it, and no earlier answer did. */
  ghost predicate Merged<Event, Error>(attributes: seq<Answer<Event, Error>>, head: seq<Answer<Event, Error>>,
                                       out: seq<Event>, tagged: seq<Tagged<Event>>,
                                       a: seq<Answer<Event, Error>>, h: seq<Answer<Event, Error>>)
  {
    && a <= attributes && h <= head && Interleaved(out, tagged, a, h)
    && (StopsLast(a, false) || StopsLast(h, true))
    && (a != [] ==> NoneStops(a[..|a| - 1], false))
    && (h != [] ==> NoneStops(h[..|h| - 1], true))
  }

  lemma MergingStart<Event, Error>(attributes: seq<Answer<Event, Error>>, head: seq<Answer<Event, Error>>)
    ensures Merging(attributes, head, 0, [], [], [], [])
  {
  }

  lemma MergingStep<Event, Error>(attributes: seq<Answer<Event, Error>>, head: seq<Answer<Event, Error>>, n: nat,
                                  out: seq<Event>, tagged: seq<Tagged<Event>>,
                                  a: seq<Answer<Event, Error>>, h: seq<Answer<Event, Error>>,
                                  restA: seq<Answer<Event, Error>>, restH: seq<Answer<Event, Error>>,
                                  r: Poll<Event>, from: Option<Tagged<Event>>,
                                  moreA: seq<Answer<Event, Error>>, moreH: seq<Answer<Event, Error>>)
    requires Merging(attributes, head, n, out, tagged, a, h)
    requires Polled(attributes[|a|..], head[|h|..], restA, restH, r, from, moreA, moreH)
    ensures restA == attributes[|a + moreA|..] && restH == head[|h + moreH|..]
    ensures var out', tagged' := out + (if r.Yield? then [r.event] else []), tagged + Tag(from);
            if r.Done? then Merged(attributes, head, out', tagged', a + moreA, h + moreH)
            else Merging(attributes, head, n + 1, out', tagged', a + moreA, h + moreH)
  {
    InterleavedStep(out, if r.Yield? then [r.event] else [], tagged, from, a, h, moreA, moreH);
    StopsStep(a, moreA, false);
    StopsStep(h, moreH, true);
    PrefixGrows(attributes, a, moreA, restA);
    PrefixGrows(head, h, moreH, restH);
    if !r.Done? { AskedStep(n, a, h, |attributes|, |head|, moreA, moreH); }
  }

  lemma PrefixGrows<T>(whole: seq<T>, a: seq<T>, more: seq<T>, rest: seq<T>)
    requires a <= whole && whole[|a|..] == more + rest
    ensures a + more <= whole && rest == whole[|a + more|..]
  {
    assert whole == a + (more + rest);
  }

  class BeaconEventsStream<Event(==), Error(==)> {
    var payloadAttributes: seq<Answer<Event, Error>>
    var newHead: seq<Answer<Event, Error>>

    constructor (attributes: seq<Answer<Event, Error>>, head: seq<Answer<Event, Error>>)
      ensures payloadAttributes == attributes && newHead == head
    {
      payloadAttributes, newHead := attributes, head;
    }

    method PollNext() returns (r: Poll<Event>, ghost from: Option<Tagged<Event>>,
                               ghost a: seq<Answer<Event, Error>>, ghost h: seq<Answer<Event, Error>>)
      modifies this
      ensures Polled(old(payloadAttributes), old(newHead), payloadAttributes, newHead, r, from, a, h)
    {
      from, a, h := None, First(payloadAttributes), [];
      if payloadAttributes != [] {
        var answer := payloadAttributes[0];
        payloadAttributes := payloadAttributes[1..];
        match answer
        case Next(event) => return Yield(event), Some(FromAttributes(event)), a, h;
        case Failed(error) => return Done, None, a, h;
        case Ended =>
        case NotReady =>
      }
      h := First(newHead);
      if newHead != [] {
        var answer := newHead[0];
        newHead := newHead[1..];
        match answer
        case Next(event) => return Yield(event), Some(FromHead(event)), a, h;
        case Failed(error) => return Done, None, a, h;
        case Ended => return Done, None, a, h;
        case NotReady =>
      }
      r := Pending;
    }

    /** Any number of polls, up to the end.  The output is an interleaving of the events of the answers the
        streams gave, none lost, repeated or reordered.  The merge is done exactly when the last answer of
        either stops it, and no earlier answer did; so an end by the end of the head stream comes after every
        head event has gone out, and the end of the attributes stream stops nothing. */
    method PollMany(polls: nat)
      returns (out: seq<Event>, done: bool, ghost tagged: seq<Tagged<Event>>,
               ghost a: seq<Answer<Event, Error>>, ghost h: seq<Answer<Event, Error>>)
      modifies this
      ensures if done then Merged(old(payloadAttributes), old(newHead), out, tagged, a, h)
              else Merging(old(payloadAttributes), old(newHead), polls, out, tagged, a, h)
      ensures payloadAttributes == old(payloadAttributes)[|a|..] && newHead == old(newHead)[|h|..]
    {
      ghost var attributes, heads := payloadAttributes, newHead;
      out, done, tagged, a, h := [], false, [], [], [];
      var n := 0;
      MergingStart(attributes, heads);
      while n < polls
        invariant n <= polls && Merging(attributes, heads, n, out, tagged, a, h)
        invariant payloadAttributes == attributes[|a|..] && newHead == heads[|h|..]
      {
        var r, from, moreA, moreH := PollNext();
        MergingStep(attributes, heads, n, out, tagged, a, h, payloadAttributes, newHead, r, from, moreA, moreH);
        a, h, tagged := a + moreA, h + moreH, tagged + Tag(from);
        out, n := out + (if r.Yield? then [r.event] else []), n + 1;
        if r.Done? { return out, true, tagged, a, h; }
      }
    }
  }
}
