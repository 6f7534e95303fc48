/** The two streaming services (crates/api): each connection is one loop over its incoming messages.
    A message is given by the outcome of its conversion; a sender delivers until its receiver is gone. */
module Services {
  import opened Entities
  import opened UseCases
  import opened AtomicRelay
  import opened WinLog

  class Sender<Reply> {
    var sent: seq<Reply>
    var left: nat

    constructor (left: nat)
      ensures sent == [] && this.left == left
    {
      sent, this.left := [], left;
    }

    method Send(reply: Reply) returns (ok: bool)
      modifies this
      ensures ok <==> old(left) > 0
      ensures left == if ok then old(left) - 1 else 0
      ensures sent == old(sent) + if ok then [reply] else []
    {
      ok := left > 0;
      if ok { sent, left := sent + [reply], left - 1; }
    }
  }

  datatype BidMessage = Convertible(bid: BidSubmission) | Malformed(error: string) | Broken(status: string)

  datatype BidReply =
    | BidAccepted
    | BidRejected(reason: RelayError)
    | ConversionFailed(error: string)
    | StreamFailed(status: string)

  function Code(reply: BidReply): int {
    if reply.BidAccepted? then 0 else 1
  }

  /** The bids of some messages, as calls. */
  function Submissions(messages: seq<BidMessage>): seq<Call> {
    if messages == [] then []
    else Submissions(messages[..|messages| - 1])
         + if messages[|messages| - 1].Convertible? then [Submit(messages[|messages| - 1].bid)] else []
  }

  /** The answer to a message when the relay stands at `r`. */
  function Answer(env: Env, r: Relay, m: BidMessage): BidReply {
    match m
    case Convertible(bid) =>
      var result := SubmitBid(env, r.storage, r.best, bid).result;
      if result.Ok? then BidAccepted else BidRejected(result.error)
    case Malformed(error) => ConversionFailed(error)
    case Broken(status) => StreamFailed(status)
  }

  function Answers(env: Env, r: Relay, messages: seq<BidMessage>): (replies: seq<BidReply>)
    ensures |replies| == |messages|
  {
    if messages == [] then []
    else
      var before := messages[..|messages| - 1];
      Answers(env, r, before) + [Answer(env, Play(env, r, Submissions(before)), messages[|messages| - 1])]
  }

  /** How many messages a connection takes: it stops after a broken stream and after an answer nobody receives. */
  function Taken(messages: seq<BidMessage>, left: nat): (n: nat)
    ensures n <= |messages|
  {
    if messages == [] then 0
    else if messages[0].Broken? || left == 0 then 1
    else 1 + Taken(messages[1..], left - 1)
  }

  lemma OneMoreMessage(env: Env, r: Relay, messages: seq<BidMessage>, i: nat)
    requires i < |messages|
    ensures var now := Play(env, r, Submissions(messages[..i]));
            && Answers(env, r, messages[..i + 1]) == Answers(env, r, messages[..i]) + [Answer(env, now, messages[i])]
            && Play(env, r, Submissions(messages[..i + 1]))
               == if messages[i].Convertible? then Apply(env, now, Submit(messages[i].bid)) else now
  {
    assert messages[..i + 1][..i] == messages[..i];
    var calls := Submissions(messages[..i]);
    if messages[i].Convertible? {
      assert (calls + [Submit(messages[i].bid)])[..|calls|] == calls;
    } else {
      assert calls + [] == calls;
    }
  }

  lemma {:induction false} AnswerAt(env: Env, r: Relay, messages: seq<BidMessage>, i: nat)
    requires i < |messages|
    ensures Answers(env, r, messages)[i] == Answer(env, Play(env, r, Submissions(messages[..i])), messages[i])
  {
    var n := |messages| - 1;
    if i < n {
      AnswerAt(env, r, messages[..n], i);
      assert messages[..n][..i] == messages[..i];
    }
  }

  /** One answer per message, in order, with code 0 exactly for the bids the relay accepted when their
      turn came. */
  lemma CodeZeroMeansAccepted(env: Env, r: Relay, messages: seq<BidMessage>, i: nat)
    requires i < |messages|
    ensures Code(Answers(env, r, messages)[i]) == 0 <==>
            && messages[i].Convertible?
            && AcceptsNow(env, Play(env, r, Submissions(messages[..i])), Submit(messages[i].bid))
  {
    AnswerAt(env, r, messages, i);
  }

  function Min(a: nat, b: nat): nat {
    if a < b then a else b
  }

  lemma AnswerOrNot<T>(answers: seq<T>, answer: T, left: nat, i: nat)
    requires |answers| == i
    ensures (answers + [answer])[..Min(left, i + 1)] == answers[..Min(left, i)] + if left > i then [answer] else []
  {
  }

  /** A connection part way: `i` messages taken, the relay at `now`, room for `left` more answers, and
      `sent` given to the receiver, who had `before`. */
  ghost predicate Served(env: Env, r: Relay, messages: seq<BidMessage>, room: nat, before: seq<BidReply>,
                         i: nat, more: bool, now: Relay, left: nat, sent: seq<BidReply>)
    requires i <= |messages|
  {
    && left == (if i < room then room - i else 0) && (more ==> i <= room)
    && Taken(messages, room) == i + (if more then Taken(messages[i..], left) else 0)
    && now == Play(env, r, Submissions(messages[..i]))
    && sent == before + Answers(env, r, messages[..i])[..Min(room, i)]
  }

  lemma ServedStart(env: Env, r: Relay, messages: seq<BidMessage>, room: nat, before: seq<BidReply>)
    ensures Served(env, r, messages, room, before, 0, true, r, room, before)
  {
    assert messages[0..] == messages && before + [] == before;
  }

  lemma ServedStep(env: Env, r: Relay, messages: seq<BidMessage>, room: nat, before: seq<BidReply>,
                   i: nat, now: Relay, left: nat, sent: seq<BidReply>)
    requires i < |messages| && Served(env, r, messages, room, before, i, true, now, left, sent)
    ensures Served(env, r, messages, room, before, i + 1, !messages[i].Broken? && left > 0,
                   if messages[i].Convertible? then Apply(env, now, Submit(messages[i].bid)) else now,
                   if left > 0 then left - 1 else 0,
                   sent + if left > 0 then [Answer(env, now, messages[i])] else [])
  {
    OneMoreMessage(env, r, messages, i);
    AnswerOrNot(Answers(env, r, messages[..i]), Answer(env, now, messages[i]), room, i);
    assert messages[i..][1..] == messages[i + 1..];
    var out := Answers(env, r, messages[..i])[..Min(room, i)];
    var reply := if left > 0 then [Answer(env, now, messages[i])] else [];
    assert (before + out) + reply == before + (out + reply);
  }

  lemma ServedEnd(env: Env, r: Relay, messages: seq<BidMessage>, room: nat, before: seq<BidReply>,
                  i: nat, more: bool, now: Relay, left: nat, sent: seq<BidReply>)
    requires i <= |messages| && Served(env, r, messages, room, before, i, more, now, left, sent)
    requires i == |messages| || !more
    ensures var taken := messages[..Taken(messages, room)];
            && now == Play(env, r, Submissions(taken))
            && sent == before + Answers(env, r, taken)[..Min(room, |taken|)]
  {
  }

  class BidderService {
    const usecase: SubmitBidUseCase

    constructor (usecase: SubmitBidUseCase)
      ensures this.usecase == usecase
    {
      this.usecase := usecase;
    }

    ghost function State(): Relay
      reads usecase.storage, usecase.auctioneer
    {
      Relay(usecase.storage.State(), usecase.auctioneer.Best())
    }

    /** One message: a bid goes to the relay, anything else leaves it alone; the answer is sent if anyone
        still receives, and the connection goes on unless the stream broke or nobody does. */
    method HandleMessage(m: BidMessage, tx: Sender<BidReply>) returns (more: bool)
      modifies usecase.storage, usecase.auctioneer, tx
      ensures State() == if m.Convertible? then Apply(usecase.env, old(State()), Submit(m.bid)) else old(State())
      ensures tx.sent == old(tx.sent) + if old(tx.left) > 0 then [Answer(usecase.env, old(State()), m)] else []
      ensures tx.left == if old(tx.left) > 0 then old(tx.left) - 1 else 0
      ensures more <==> !m.Broken? && old(tx.left) > 0
    {
      match m {
        case Broken(status) =>
          var ok := tx.Send(StreamFailed(status));
          more := false;
        case Malformed(error) =>
          more := tx.Send(ConversionFailed(error));
        case Convertible(bid) =>
          var result := usecase.Execute(bid);
          more := tx.Send(if result.Ok? then BidAccepted else BidRejected(result.error));
      }
    }

    /** The connection leaves the stores as the bids it took, submitted one after another, leave them,
        and the receiver gets the answers in order for as long as it is there. */
    method HandleRequest(messages: seq<BidMessage>, tx: Sender<BidReply>)
      modifies usecase.storage, usecase.auctioneer, tx
      ensures var taken := messages[..Taken(messages, old(tx.left))];
              && State() == Play(usecase.env, old(State()), Submissions(taken))
              && tx.sent == old(tx.sent) + Answers(usecase.env, old(State()), taken)[..Min(old(tx.left), |taken|)]
    {
      ghost var r0, room, before := State(), tx.left, tx.sent;
      var i, more := 0, true;
      ServedStart(usecase.env, r0, messages, room, before);
      while i < |messages| && more
        invariant i <= |messages|
        invariant Served(usecase.env, r0, messages, room, before, i, more, State(), tx.left, tx.sent)
      {
        ServedStep(usecase.env, r0, messages, room, before, i, State(), tx.left, tx.sent);
        more := HandleMessage(messages[i], tx);
        i := i + 1;
      }
      ServedEnd(usecase.env, r0, messages, room, before, i, more, State(), tx.left, tx.sent);
    }
  }

  lemma {:induction false} SubmissionsFetchNothing(rota: U64 -> PublicKey, calls: seq<Call>, messages: seq<BidMessage>)
    requires RefreshesFollow(rota, calls)
    ensures RefreshesFollow(rota, calls + Submissions(messages))
  {
    if messages == [] {
      assert calls + [] == calls;
    } else {
      var n := |messages| - 1;
      SubmissionsFetchNothing(rota, calls, messages[..n]);
      var last := if messages[n].Convertible? then [Submit(messages[n].bid)] else [];
      assert calls + Submissions(messages) == (calls + Submissions(messages[..n])) + last;
    }
  }

  /** Streams keep the indexes in agreement: after any run followed by a bidder connection of any length, the
      stores as HandleRequest leaves them agree on every proposer, by the log of both. */
  lemma StreamsKeepAgreement(env: Env, whitelist: seq<PublicKey>, calls: seq<Call>, messages: seq<BidMessage>,
                             rota: U64 -> PublicKey, pubkey: PublicKey)
    requires RefreshesFollow(rota, calls)
    ensures var r := Play(env, Play(env, Fresh(whitelist), calls), Submissions(messages));
            Agree(r.storage.blinded, r.best, Accepted(env, Fresh(whitelist), calls + Submissions(messages)), pubkey)
  {
    SubmissionsFetchNothing(rota, calls, messages);
    PlayConcat(env, Fresh(whitelist), calls, Submissions(messages));
    TwoIndexesAgree(env, whitelist, calls + Submissions(messages), rota, pubkey);
  }

  datatype RetrieveMessage =
    | Request(slot: U64, parentHash: B256, pubkey: Option<PublicKey>)
    | RetrieveBroken(status: string)

  datatype RetrieveReply =
    | Header(signed: Versioned<SignedHeader>, payload: Option<ExecutionPayload>, blobs: Option<BlobsBundle>)
    | Refused(reason: RelayError)
    | InvalidKey
    | RetrieveFailed(status: string)

  function RetrieveAnswer(env: Env, fork: ForkName, r: Relay, m: RetrieveMessage): RetrieveReply {
    match m
    case RetrieveBroken(status) => RetrieveFailed(status)
    case Request(slot, parentHash, pubkey) =>
      if pubkey.None? then InvalidKey
      else
        var header := GetHeader(env, r.storage, r.best, slot, parentHash, pubkey.value);
        if header.Err? then Refused(header.error)
        else Header(Versioned(fork, header.value), Some(r.best[slot].payload), Some(r.best[slot].blobs))
  }

  /** A header goes out with the payload that builds it, the best bid's, and with that bid's blobs. */
  lemma HeaderGoesWithItsPayload(env: Env, fork: ForkName, r: Relay, m: RetrieveMessage)
    requires RetrieveAnswer(env, fork, r, m).Header?
    ensures var answer := RetrieveAnswer(env, fork, r, m);
            && m.Request? && m.slot in r.best && m.slot == NextSlot(r.storage.headSlot)
            && answer.payload == Some(r.best[m.slot].payload) && answer.blobs == Some(r.best[m.slot].blobs)
            && BuildHeader(env, answer.payload.value) == answer.signed.data.message
            && answer.signed.data.signature == env.sign(answer.signed.data.message)
            && answer.signed.version == fork
  {
  }

  function RetrieveAnswers(env: Env, fork: ForkName, r: Relay,
                           messages: seq<RetrieveMessage>): (replies: seq<RetrieveReply>)
    ensures |replies| == |messages|
  {
    if messages == [] then []
    else
      RetrieveAnswers(env, fork, r, messages[..|messages| - 1])
      + [RetrieveAnswer(env, fork, r, messages[|messages| - 1])]
  }

  /** An error answer nobody receives does not stop the connection; a header nobody receives does. */
  function RetrieveTaken(env: Env, fork: ForkName, r: Relay, messages: seq<RetrieveMessage>, left: nat): (n: nat)
    ensures n <= |messages|
  {
    if messages == [] then 0
    else if messages[0].RetrieveBroken? || (left == 0 && RetrieveAnswer(env, fork, r, messages[0]).Header?) then 1
    else 1 + RetrieveTaken(env, fork, r, messages[1..], if left == 0 then 0 else left - 1)
  }

  lemma OneMoreRetrieve(env: Env, fork: ForkName, r: Relay, messages: seq<RetrieveMessage>, left: nat, i: nat)
    requires i < |messages|
    ensures var answer := RetrieveAnswer(env, fork, r, messages[i]);
            && RetrieveAnswers(env, fork, r, messages[..i + 1])[..Min(left, i + 1)]
               == RetrieveAnswers(env, fork, r, messages[..i])[..Min(left, i)] + (if left > i then [answer] else [])
            && var now := if i < left then left - i else 0;
               RetrieveTaken(env, fork, r, messages[i..], now)
               == if messages[i].RetrieveBroken? || (now == 0 && answer.Header?) then 1
                  else 1 + RetrieveTaken(env, fork, r, messages[i + 1..], if now == 0 then 0 else now - 1)
  {
    assert messages[..i + 1][..i] == messages[..i] && messages[i..][1..] == messages[i + 1..];
    AnswerOrNot(RetrieveAnswers(env, fork, r, messages[..i]), RetrieveAnswer(env, fork, r, messages[i]), left, i);
  }

  /** A connection part way, as for bids; the relay stays at `r`. */
  ghost predicate Answered(env: Env, fork: ForkName, r: Relay, messages: seq<RetrieveMessage>, room: nat,
                           before: seq<RetrieveReply>, i: nat, more: bool, left: nat, sent: seq<RetrieveReply>)
    requires i <= |messages|
  {
    && left == (if i < room then room - i else 0)
    && RetrieveTaken(env, fork, r, messages, room)
       == i + (if more then RetrieveTaken(env, fork, r, messages[i..], left) else 0)
    && sent == before + RetrieveAnswers(env, fork, r, messages[..i])[..Min(room, i)]
  }

  lemma AnsweredStart(env: Env, fork: ForkName, r: Relay, messages: seq<RetrieveMessage>, room: nat,
                      before: seq<RetrieveReply>)
    ensures Answered(env, fork, r, messages, room, before, 0, true, room, before)
  {
    assert messages[0..] == messages && before + [] == before;
  }

  lemma AnsweredStep(env: Env, fork: ForkName, r: Relay, messages: seq<RetrieveMessage>, room: nat,
                     before: seq<RetrieveReply>, i: nat, left: nat, sent: seq<RetrieveReply>)
    requires i < |messages| && Answered(env, fork, r, messages, room, before, i, true, left, sent)
    ensures var answer := RetrieveAnswer(env, fork, r, messages[i]);
            Answered(env, fork, r, messages, room, before, i + 1,
                     !messages[i].RetrieveBroken? && (answer.Header? ==> left > 0),
                     if left > 0 then left - 1 else 0, sent + if left > 0 then [answer] else [])
  {
    OneMoreRetrieve(env, fork, r, messages, room, i);
    var out := RetrieveAnswers(env, fork, r, messages[..i])[..Min(room, i)];
    var reply := if left > 0 then [RetrieveAnswer(env, fork, r, messages[i])] else [];
    assert (before + out) + reply == before + (out + reply);
  }

  lemma AnsweredEnd(env: Env, fork: ForkName, r: Relay, messages: seq<RetrieveMessage>, room: nat,
                    before: seq<RetrieveReply>, i: nat, more: bool, left: nat, sent: seq<RetrieveReply>)
    requires i <= |messages| && Answered(env, fork, r, messages, room, before, i, more, left, sent)
    requires i == |messages| || !more
    ensures var taken := messages[..RetrieveTaken(env, fork, r, messages, room)];
            sent == before + RetrieveAnswers(env, fork, r, taken)[..Min(room, |taken|)]
  {
  }

  class RetrieverService {
    const getHeader: GetHeaderUseCase

    constructor (getHeader: GetHeaderUseCase)
      ensures this.getHeader == getHeader
    {
      this.getHeader := getHeader;
    }

    ghost function State(): Relay
      reads getHeader.storage, getHeader.auctioneer
    {
      Relay(getHeader.storage.State(), getHeader.auctioneer.Best())
    }

    method HandleMessage(m: RetrieveMessage, tx: Sender<RetrieveReply>) returns (more: bool)
      modifies tx
      ensures var answer := RetrieveAnswer(getHeader.env, getHeader.forkName, State(), m);
              && tx.sent == old(tx.sent) + (if old(tx.left) > 0 then [answer] else [])
              && (more <==> !m.RetrieveBroken? && (answer.Header? ==> old(tx.left) > 0))
      ensures tx.left == if old(tx.left) > 0 then old(tx.left) - 1 else 0
    {
      more := true;
      match m
      case RetrieveBroken(status) =>
        var ok := tx.Send(RetrieveFailed(status));
        more := false;
      case Request(slot, parentHash, pubkey) =>
        if pubkey.None? {
          var ok := tx.Send(InvalidKey);
          return;
        }
        var header := getHeader.Execute(slot, parentHash, pubkey.value);
        if header.Err? {
          var ok := tx.Send(Refused(header.error));
          return;
        }
        var again := getHeader.auctioneer.GetBestBid(slot);
        more := tx.Send(Header(header.value,
                               if again.Ok? then Some(again.value.payload) else None,
                               if again.Ok? then Some(again.value.blobs) else None));
    }

    /** Undisturbed, the payload sent beside a header is the one the header was built from. */
    method HandleRequest(messages: seq<RetrieveMessage>, tx: Sender<RetrieveReply>)
      modifies tx
      ensures var env, fork := getHeader.env, getHeader.forkName;
              var taken := messages[..RetrieveTaken(env, fork, State(), messages, old(tx.left))];
              tx.sent == old(tx.sent) + RetrieveAnswers(env, fork, State(), taken)[..Min(old(tx.left), |taken|)]
    {
      ghost var r, env, fork, room, before := State(), getHeader.env, getHeader.forkName, tx.left, tx.sent;
      var i, more := 0, true;
      AnsweredStart(env, fork, r, messages, room, before);
      while i < |messages| && more
        invariant i <= |messages|
        invariant Answered(env, fork, r, messages, room, before, i, more, tx.left, tx.sent)
      {
        AnsweredStep(env, fork, r, messages, room, before, i, tx.left, tx.sent);
        more := HandleMessage(messages[i], tx);
        i := i + 1;
      }
      AnsweredEnd(env, fork, r, messages, room, before, i, more, tx.left, tx.sent);
    }
  }
}
