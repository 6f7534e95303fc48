/** The merge of the beacon event streams over the readers it really merges
    (crates/gateway/src/beacon/events/stream.rs over crates/gateway/src/beacon/events/mod.rs).  What a
    reader answers does not depend on who else is polled, so the answers of each can be told first. */
module BeaconFeed {
  import opened Entities
  import opened EventMerge
  import opened SseBlocks

  type EventAnswer<Event, Error> = EventMerge.Answer<Event, Error>

  /** What some answers deliver: events, and failures in their places. */
  function Outcomes<Event, Error>(answers: seq<EventAnswer<Event, Error>>): seq<Result<Event, Error>> {
    if answers == [] then [] else Outcomes(answers[..|answers| - 1]) + Outcome(answers[|answers| - 1])
  }

  function Outcome<Event, Error>(answer: EventAnswer<Event, Error>): seq<Result<Event, Error>> {
    match answer
    case Next(event) => [Ok(event)]
    case Failed(error) => [Err(error)]
    case _ => []
  }

  function Oks<Event, Error>(outcomes: seq<Result<Event, Error>>): seq<Event> {
    if outcomes == [] then []
    else
      var last := outcomes[|outcomes| - 1];
      Oks(outcomes[..|outcomes| - 1]) + if last.Ok? then [last.value] else []
  }

  lemma OutcomesOneMore<Event, Error>(answers: seq<EventAnswer<Event, Error>>, answer: EventAnswer<Event, Error>)
    ensures Outcomes(answers + [answer]) == Outcomes(answers) + Outcome(answer)
  {
    assert (answers + [answer])[..|answers|] == answers;
  }

  lemma {:induction false} OutcomesConcat<Event, Error>(a: seq<EventAnswer<Event, Error>>,
                                                           b: seq<EventAnswer<Event, Error>>)
    ensures Outcomes(a + b) == Outcomes(a) + Outcomes(b)
  {
    if b == [] {
      assert a + b == a;
    } else {
      assert (a + b)[..|a + b| - 1] == a + b[..|b| - 1];
      OutcomesConcat(a, b[..|b| - 1]);
    }
  }

  lemma OksOneMore<Event, Error>(outcomes: seq<Result<Event, Error>>, answer: EventAnswer<Event, Error>)
    ensures Oks(outcomes + Outcome(answer)) == Oks(outcomes) + if answer.Next? then [answer.event] else []
  {
    if Outcome(answer) == [] {
      assert outcomes + Outcome(answer) == outcomes;
    } else {
      assert (outcomes + Outcome(answer))[..|outcomes|] == outcomes;
    }
  }

  lemma {:induction false} EventsAreOks<Event, Error>(answers: seq<EventAnswer<Event, Error>>)
    ensures Events(answers) == Oks(Outcomes(answers))
  {
    if answers != [] {
      var n := |answers| - 1;
      EventsAreOks(answers[..n]);
      OksOneMore(Outcomes(answers[..n]), answers[n]);
    }
  }

  ghost predicate AllOk<Event, Error>(outcomes: seq<Result<Event, Error>>) {
    forall i :: 0 <= i < |outcomes| ==> outcomes[i].Ok?
  }

  /** No outcome but the last is a failure. */
  ghost predicate FailsAtMostLast<Event, Error>(outcomes: seq<Result<Event, Error>>) {
    forall i :: 0 <= i < |outcomes| - 1 ==> outcomes[i].Ok?
  }

  lemma {:induction false} NoneStopsAllOk<Event, Error>(given: seq<EventAnswer<Event, Error>>, endStops: bool)
    requires NoneStops(given, endStops)
    ensures AllOk(Outcomes(given))
  {
    if given != [] {
      NoneStopsAllOk(given[..|given| - 1], endStops);
      assert !Stops(given[|given| - 1], endStops);
    }
  }

  lemma OnlyLastFails<Event, Error>(given: seq<EventAnswer<Event, Error>>, endStops: bool)
    requires given != [] ==> NoneStops(given[..|given| - 1], endStops)
    ensures FailsAtMostLast(Outcomes(given))
    ensures StopsLast(given, endStops) && !given[|given| - 1].Ended? ==>
              Outcomes(given) != [] && Outcomes(given)[|Outcomes(given)| - 1].Err?
  {
    if given != [] { NoneStopsAllOk(given[..|given| - 1], endStops); }
  }

  /** Some answers of a reader, against what it owed before and owes after: nothing is lost on the way, and
      an end comes last and only when everything owed was delivered. */
  ghost predicate Delivers<Event, Error>(owed: seq<Result<Event, Error>>, answers: seq<EventAnswer<Event, Error>>,
                                         left: seq<Result<Event, Error>>)
  {
    && (forall i :: 0 <= i < |answers| - 1 ==> !answers[i].Ended?)
    && owed == Outcomes(answers) + if answers != [] && answers[|answers| - 1].Ended? then [] else left
  }

  /** The same while the reader has not ended. */
  ghost predicate Delivering<Event, Error>(owed: seq<Result<Event, Error>>, answers: seq<EventAnswer<Event, Error>>,
                                           left: seq<Result<Event, Error>>)
  {
    && (forall i :: 0 <= i < |answers| ==> !answers[i].Ended?)
    && owed == Outcomes(answers) + left
  }

  /** After so many answers everything owed has been delivered. */
  ghost predicate DeliversAllBy<Event, Error>(owed: seq<Result<Event, Error>>, answers: seq<EventAnswer<Event, Error>>,
                                              work: nat)
  {
    forall k :: work < k <= |answers| ==> Outcomes(answers[..k]) == owed
  }

  lemma DeliversAllOneMore<Event, Error>(owed: seq<Result<Event, Error>>, answers: seq<EventAnswer<Event, Error>>,
                                         answer: EventAnswer<Event, Error>, work: nat)
    requires DeliversAllBy(owed, answers, work)
    requires |answers| + 1 > work ==> Outcomes(answers + [answer]) == owed
    ensures DeliversAllBy(owed, answers + [answer], work)
  {
    var more := answers + [answer];
    forall k | work < k <= |more| ensures Outcomes(more[..k]) == owed {
      if k < |more| {
        assert more[..k] == answers[..k];
        assert Outcomes(answers[..k]) == owed;
      } else {
        assert more[..k] == more;
      }
    }
  }

  lemma DeliversNothing<Event, Error>(owed: seq<Result<Event, Error>>)
    ensures Delivering(owed, [], owed)
  {
  }

  lemma DeliversSoFar<Event, Error>(owed: seq<Result<Event, Error>>, answers: seq<EventAnswer<Event, Error>>,
                                    left: seq<Result<Event, Error>>)
    requires Delivering(owed, answers, left)
    ensures Delivers(owed, answers, left)
  {
  }

  lemma DeliversOneMore<Event, Error>(owed: seq<Result<Event, Error>>, answers: seq<EventAnswer<Event, Error>>,
                                      left: seq<Result<Event, Error>>, answer: EventAnswer<Event, Error>,
                                      left': seq<Result<Event, Error>>)
    requires Delivering(owed, answers, left) && left == Outcome(answer) + if answer.Ended? then [] else left'
    ensures if answer.Ended? then Delivers(owed, answers + [answer], left')
            else Delivering(owed, answers + [answer], left')
  {
    OutcomesOneMore(answers, answer);
    var after := if answer.Ended? then [] else left';
    assert Outcomes(answers) + (Outcome(answer) + after) == (Outcomes(answers) + Outcome(answer)) + after;
  }

  function AnswerOf<Event, Error>(poll: SseBlocks.Poll<Result<Event, Error>>): EventAnswer<Event, Error> {
    if poll.Pending? then EventMerge.NotReady
    else if poll.item.None? then EventMerge.Ended
    else match poll.item.value case Ok(event) => Next(event) case Err(error) => EventMerge.Failed(error)
  }

  /** One poll of a reader. */
  method Ask<T(==), Event(==), Error(==)>(reader: SseByteStream<T, Event, Error>)
    returns (answer: EventAnswer<Event, Error>)
    requires reader.Valid()
    modifies reader
    ensures reader.Valid()
    ensures old(reader.Owed()) == Outcome(answer) + if answer.Ended? then [] else reader.Owed()
    ensures !answer.Ended? ==> reader.Work() < old(reader.Work()) || reader.Exhausted()
    ensures answer.Ended? ==> HasEnd(old(reader.inner))
    ensures !answer.Ended? ==> (HasEnd(old(reader.inner)) <==> HasEnd(reader.inner))
  {
    var poll := reader.PollOnce();
    answer := AnswerOf(poll);
  }

  /** What the answers of a reader are to one that merges them: `work` is the reader's at first, and `ends`
      says whether its input has an end. */
  ghost predicate Answered<Event, Error>(owed: seq<Result<Event, Error>>, answers: seq<EventAnswer<Event, Error>>,
                                         left: seq<Result<Event, Error>>, work: nat, ends: bool, polls: nat)
  {
    && Delivers(owed, answers, left) && DeliversAllBy(owed, answers, work) && |owed| <= work
    && |answers| <= polls && (|answers| == polls || (answers != [] && answers[|answers| - 1].Ended?))
    && (answers != [] && answers[|answers| - 1].Ended? ==> ends)
  }

  /** The answers a reader gives to so many polls, up to its end.  After as many answers as the reader has
      work, everything it owed has been delivered. */
  method Answers<T(==), Event(==), Error(==)>(reader: SseByteStream<T, Event, Error>, polls: nat)
    returns (answers: seq<EventAnswer<Event, Error>>)
    requires reader.Valid()
    modifies reader
    ensures reader.Valid()
    ensures Answered(old(reader.Owed()), answers, reader.Owed(), old(reader.Work()), HasEnd(old(reader.inner)), polls)
  {
    answers := [];
    ghost var owed, work, input := reader.Owed(), reader.Work(), reader.inner;
    DeliversNothing(owed);
    for n := 0 to polls
      invariant reader.Valid() && Delivering(owed, answers, reader.Owed()) && |answers| == n
      invariant n + reader.Work() <= work || reader.Exhausted()
      invariant DeliversAllBy(owed, answers, work) && (HasEnd(input) <==> HasEnd(reader.inner))
    {
      ghost var left := reader.Owed();
      var answer := Ask(reader);
      DeliversOneMore(owed, answers, left, answer, reader.Owed());
      if n + 1 > work && !answer.Ended? {
        assert Outcomes(answers + [answer]) + [] == Outcomes(answers + [answer]);
      }
      DeliversAllOneMore(owed, answers, answer, work);
      answers := answers + [answer];
      if answer.Ended? { return; }
    }
    DeliversSoFar(owed, answers, reader.Owed());
  }

  lemma GivenIsOwed<Event, Error>(owed: seq<Result<Event, Error>>, answers: seq<EventAnswer<Event, Error>>,
                                  left: seq<Result<Event, Error>>, given: seq<EventAnswer<Event, Error>>)
    requires Delivers(owed, answers, left) && given <= answers
    ensures Outcomes(given) <= owed
    ensures given != [] && given[|given| - 1].Ended? ==> Outcomes(given) == owed
  {
    assert answers == given + answers[|given|..];
    OutcomesConcat(given, answers[|given|..]);
    if given != [] && given[|given| - 1].Ended? {
      assert answers[|given| - 1].Ended?;
      assert answers[|given|..] == [] && given + [] == given;
    }
  }

  /** What merging two readers comes to, by what they owed.  What goes out is an interleaving of the events
      of a first part of what the attributes reader owed and of a first part of what the head reader owed, in
      which at most the last outcome is a failure.  It is over only after such a failure, or when every event
      the head reader owed has gone out. */
  ghost predicate Feeds<Event, Error>(owedA: seq<Result<Event, Error>>, owedH: seq<Result<Event, Error>>, done: bool,
                                      out: seq<Event>, tagged: seq<Tagged<Event>>,
                                      a: seq<Result<Event, Error>>, h: seq<Result<Event, Error>>)
  {
    && out == Untagged(tagged) && AttributesOf(tagged) == Oks(a) && HeadsOf(tagged) == Oks(h)
    && a <= owedA && h <= owedH && FailsAtMostLast(a) && FailsAtMostLast(h)
    && (done ==> (a != [] && a[|a| - 1].Err?) || (h != [] && h[|h| - 1].Err?) || h == owedH)
  }

  lemma MergedFeeds<Event, Error>(owedA: seq<Result<Event, Error>>, answersA: seq<EventAnswer<Event, Error>>,
                                  leftA: seq<Result<Event, Error>>,
                                  owedH: seq<Result<Event, Error>>, answersH: seq<EventAnswer<Event, Error>>,
                                  leftH: seq<Result<Event, Error>>, polls: nat, done: bool,
                                  out: seq<Event>, tagged: seq<Tagged<Event>>,
                                  a: seq<EventAnswer<Event, Error>>, h: seq<EventAnswer<Event, Error>>)
    requires Delivers(owedA, answersA, leftA) && Delivers(owedH, answersH, leftH)
    requires if done then Merged(answersA, answersH, out, tagged, a, h)
             else Merging(answersA, answersH, polls, out, tagged, a, h)
    ensures Feeds(owedA, owedH, done, out, tagged, Outcomes(a), Outcomes(h))
  {
    EventsAreOks(a);
    EventsAreOks(h);
    GivenIsOwed(owedA, answersA, leftA, a);
    GivenIsOwed(owedH, answersH, leftH, h);
    OnlyLastFails(a, false);
    OnlyLastFails(h, true);
  }

  /** A merge is over only by a failure or by the end of the head reader. */
  lemma OverByFailureOrEnd<Event, Error>(answersA: seq<EventAnswer<Event, Error>>,
                                         answersH: seq<EventAnswer<Event, Error>>,
                                         out: seq<Event>, tagged: seq<Tagged<Event>>,
                                         a: seq<EventAnswer<Event, Error>>, h: seq<EventAnswer<Event, Error>>,
                                         owed: seq<Result<Event, Error>>, left: seq<Result<Event, Error>>)
    requires Merged(answersA, answersH, out, tagged, a, h) && Delivers(owed, answersH, left)
    ensures || (Outcomes(a) != [] && Outcomes(a)[|Outcomes(a)| - 1].Err?)
            || (Outcomes(h) != [] && Outcomes(h)[|Outcomes(h)| - 1].Err?)
            || (answersH != [] && answersH[|answersH| - 1].Ended?)
  {
    OnlyLastFails(a, false);
    OnlyLastFails(h, true);
    if h != [] && h[|h| - 1].Ended? { assert answersH[|h| - 1].Ended?; }
  }

  lemma AttributesAll<Event, Error>(owed: seq<Result<Event, Error>>, answers: seq<EventAnswer<Event, Error>>, work: nat,
                                    polls: nat, given: seq<EventAnswer<Event, Error>>)
    requires |answers| == polls || Outcomes(answers) == owed
    requires DeliversAllBy(owed, answers, work) && work < polls && |owed| <= work && |answers| <= polls
    requires given <= answers && |given| == EventMerge.Least(polls, |answers|)
    ensures Outcomes(given) == owed && |Events(given)| <= work
  {
    assert given == answers && answers[..|answers|] == answers;
    EventsAreOks(given);
    OksAreFewer(Outcomes(given));
  }

  lemma HeadsAll<Event, Error>(owed: seq<Result<Event, Error>>, answers: seq<EventAnswer<Event, Error>>, work: nat,
                               turns: nat, given: seq<EventAnswer<Event, Error>>)
    requires |answers| >= turns || (answers != [] && answers[|answers| - 1].Ended?)
    requires DeliversAllBy(owed, answers, work) && work < turns
    requires given <= answers && |given| == EventMerge.Least(turns, |answers|)
    requires given != [] ==> !given[|given| - 1].Ended?
    ensures Outcomes(given) == owed
  {
    assert |given| == turns && given == answers[..turns];
  }

  lemma MergedAll<Event, Error>(owedA: seq<Result<Event, Error>>, answersA: seq<EventAnswer<Event, Error>>, workA: nat,
                                owedH: seq<Result<Event, Error>>, answersH: seq<EventAnswer<Event, Error>>, workH: nat,
                                polls: nat, out: seq<Event>, tagged: seq<Tagged<Event>>,
                                a: seq<EventAnswer<Event, Error>>, h: seq<EventAnswer<Event, Error>>)
    requires Merging(answersA, answersH, polls, out, tagged, a, h)
    requires |answersA| == polls || Outcomes(answersA) == owedA
    requires |answersH| == polls || (answersH != [] && answersH[|answersH| - 1].Ended?)
    requires DeliversAllBy(owedA, answersA, workA) && DeliversAllBy(owedH, answersH, workH)
    requires polls > workA + workH && |owedA| <= workA && |answersA| <= polls
    ensures Outcomes(a) == owedA && Outcomes(h) == owedH
  {
    AttributesAll(owedA, answersA, workA, polls, a);
    assert h != [] ==> !Stops(h[|h| - 1], true);
    HeadsAll(owedH, answersH, workH, polls - |Events(a)|, h);
  }

  lemma {:induction false} OksAreFewer<Event, Error>(outcomes: seq<Result<Event, Error>>)
    ensures |Oks(outcomes)| <= |outcomes|
  {
    if outcomes != [] { OksAreFewer(outcomes[..|outcomes| - 1]); }
  }

  lemma EndedIsOwed<Event, Error>(owed: seq<Result<Event, Error>>, answers: seq<EventAnswer<Event, Error>>,
                                  left: seq<Result<Event, Error>>)
    requires Delivers(owed, answers, left)
    ensures answers != [] && answers[|answers| - 1].Ended? ==> Outcomes(answers) == owed
  {
    assert Outcomes(answers) + [] == Outcomes(answers);
  }

  lemma NoFailureAmongOks<Event, Error>(part: seq<Result<Event, Error>>, all: seq<Result<Event, Error>>)
    requires part <= all && AllOk(all)
    ensures part != [] ==> !part[|part| - 1].Err?
  {
    if part != [] { assert part[|part| - 1] == all[|part| - 1]; }
  }

  /** What a merge has given out: besides `Feeds`, after enough polls a merge that is not over has let every
      event both readers owed go out; it is over only by a failure or by an end of the head reader's input, so
      without either it goes on. */
  ghost predicate Gives<Event, Error>(owedA: seq<Result<Event, Error>>, owedH: seq<Result<Event, Error>>, enough: bool,
                                      ends: bool, done: bool, out: seq<Event>, tagged: seq<Tagged<Event>>,
                                      a: seq<Result<Event, Error>>, h: seq<Result<Event, Error>>)
  {
    && Feeds(owedA, owedH, done, out, tagged, a, h)
    && (enough && !done ==> a == owedA && h == owedH)
    && (done ==> (a != [] && a[|a| - 1].Err?) || (h != [] && h[|h| - 1].Err?) || ends)
    && (AllOk(owedA) && AllOk(owedH) && !ends ==> !done)
  }

  lemma MergeGives<Event, Error>(owedA: seq<Result<Event, Error>>, answersA: seq<EventAnswer<Event, Error>>,
                                 leftA: seq<Result<Event, Error>>, workA: nat, endsA: bool,
                                 owedH: seq<Result<Event, Error>>, answersH: seq<EventAnswer<Event, Error>>,
                                 leftH: seq<Result<Event, Error>>, workH: nat, endsH: bool, polls: nat, done: bool,
                                 out: seq<Event>, tagged: seq<Tagged<Event>>,
                                 givenA: seq<EventAnswer<Event, Error>>, givenH: seq<EventAnswer<Event, Error>>)
    requires Answered(owedA, answersA, leftA, workA, endsA, polls)
    requires Answered(owedH, answersH, leftH, workH, endsH, polls)
    requires if done then Merged(answersA, answersH, out, tagged, givenA, givenH)
             else Merging(answersA, answersH, polls, out, tagged, givenA, givenH)
    ensures Gives(owedA, owedH, polls > workA + workH, endsH, done, out, tagged, Outcomes(givenA), Outcomes(givenH))
  {
    MergedFeeds(owedA, answersA, leftA, owedH, answersH, leftH, polls, done, out, tagged, givenA, givenH);
    if done {
      OverByFailureOrEnd(answersA, answersH, out, tagged, givenA, givenH, owedH, leftH);
      if AllOk(owedA) { NoFailureAmongOks(Outcomes(givenA), owedA); }
      if AllOk(owedH) { NoFailureAmongOks(Outcomes(givenH), owedH); }
    } else if polls > workA + workH {
      EndedIsOwed(owedA, answersA, leftA);
      MergedAll(owedA, answersA, workA, owedH, answersH, workH, polls, out, tagged, givenA, givenH);
    }
  }

  /** The merge of two readers, for any number of polls; more of them than both readers have work are enough. */
  method Merge<T(==), Event(==), Error(==)>(attributes: SseByteStream<T, Event, Error>,
                                            head: SseByteStream<T, Event, Error>, polls: nat)
    returns (out: seq<Event>, done: bool, ghost tagged: seq<Tagged<Event>>,
             ghost a: seq<Result<Event, Error>>, ghost h: seq<Result<Event, Error>>)
    requires attributes != head && attributes.Valid() && head.Valid()
    modifies attributes, head
    ensures Gives(old(attributes.Owed()), old(head.Owed()), polls > old(attributes.Work()) + old(head.Work()),
                  HasEnd(old(head.inner)), done, out, tagged, a, h)
  {
    ghost var owedA, owedH := attributes.Owed(), head.Owed();
    ghost var workA, workH := attributes.Work(), head.Work();
    ghost var endsA, endsH := HasEnd(attributes.inner), HasEnd(head.inner);
    var answersA := Answers(attributes, polls);
    ghost var leftA := attributes.Owed();
    var answersH := Answers(head, polls);
    ghost var leftH := head.Owed();
    out, done, tagged, a, h := MergeAnswers(owedA, answersA, leftA, workA, endsA, owedH, answersH, leftH, workH, endsH,
                                            polls);
  }

  method MergeAnswers<Event(==), Error(==)>(ghost owedA: seq<Result<Event, Error>>,
                                            answersA: seq<EventAnswer<Event, Error>>,
                                            ghost leftA: seq<Result<Event, Error>>, ghost workA: nat, ghost endsA: bool,
                                            ghost owedH: seq<Result<Event, Error>>,
                                            answersH: seq<EventAnswer<Event, Error>>,
                                            ghost leftH: seq<Result<Event, Error>>, ghost workH: nat, ghost endsH: bool,
                                            polls: nat)
    returns (out: seq<Event>, done: bool, ghost tagged: seq<Tagged<Event>>,
             ghost a: seq<Result<Event, Error>>, ghost h: seq<Result<Event, Error>>)
    requires Answered(owedA, answersA, leftA, workA, endsA, polls)
    requires Answered(owedH, answersH, leftH, workH, endsH, polls)
    ensures Gives(owedA, owedH, polls > workA + workH, endsH, done, out, tagged, a, h)
  {
    var merge := new BeaconEventsStream(answersA, answersH);
    ghost var givenA, givenH;
    out, done, tagged, givenA, givenH := merge.PollMany(polls);
    MergeGives(owedA, answersA, leftA, workA, endsA, owedH, answersH, leftH, workH, endsH, polls, done,
               out, tagged, givenA, givenH);
    a, h := Outcomes(givenA), Outcomes(givenH);
  }
}
