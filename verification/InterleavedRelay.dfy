/** The relay as it really runs: any number of calls in flight, each a task that makes one access to
    the shared stores per step, interleaved with each other, with the event feed and with cache
    expiry.  A call that runs without interruption does what UseCases says it does. */
module InterleavedRelay {
  import opened Entities
  import opened Datastore
  import opened UseCases

  datatype BidPc =
    | AtWhitelist
    | AtHead
    | AtAttributes
    | AtDuty
    | AtCompare(duty: ProposerDuty)
    | AtStore(duty: ProposerDuty)
    | BidDone(result: Result<(), RelayError>)

  /** The retriever asks GetHeader for a header and then reads the best bid again. */
  datatype RetrievePc =
    | AtRegistration
    | AtHeaderDuty
    | AtHeaderHead
    | AtBest
    | AtSecondBest(first: BidSubmission)
    | Retrieved(first: BidSubmission, second: Option<BidSubmission>)
    | RetrieveFailed(error: RelayError)

  datatype UnblindPc =
    | AtUnblindDuty
    | AtUnblindRegistration(duty: ProposerDuty)
    | AtResponse(duty: ProposerDuty)
    | AtDeliver(response: BlindedBlockResponse)
    | Unblinded(result: Result<BlindedBlockResponse, RelayError>)

  /** One run of `sync_duties`.  While the current epoch's duties are filtered `earlier` is None;
      while the next epoch's are, it holds the current epoch's survivors. */
  datatype SyncPc =
    | AwaitCurrent
    | Filtering(earlier: Option<seq<ProposerDuty>>, started: bool, todo: seq<ProposerDuty>, kept: seq<ProposerDuty>)
    | AwaitNext(current: seq<ProposerDuty>)
    | AtCommit(duties: seq<ProposerDuty>)
    | SyncDone(synced: bool)

  datatype Task =
    | Bidding(bid: BidSubmission, bidPc: BidPc)
    | Retrieving(slot: U64, parentHash: B256, pubkey: PublicKey, retrievePc: RetrievePc)
    | Unblinding(slot: U64, index: U64, blockHash: B256, signature: Signature, unblindPc: UnblindPc)
    | Syncing(epoch: U64, syncPc: SyncPc)

  datatype System = System(storage: StorageState, best: BestBids, tasks: seq<Task>)

  datatype Event =
    | BeginBid(bid: BidSubmission)
    | BeginRetrieve(slot: U64, parentHash: B256, pubkey: PublicKey)
    | BeginUnblind(slot: U64, index: U64, blockHash: B256, signature: Signature)
    | BeginSync(epoch: U64)
    | Advance(task: nat)
    | DutiesReply(task: nat, reply: Option<seq<ProposerDuty>>)
    | HeadSeen(head: U64)
    | AttributesSeen(attributes: PayloadAttributes)
    | RegisterValidator(registration: SignedRegistration)
    | Evict(evicted: U64)

  function Start(whitelist: seq<PublicKey>): System {
    System(EmptyStorage(whitelist), map[], [])
  }

  function AdvanceBid(env: Env, st: StorageState, best: BestBids, bid: BidSubmission, pc: BidPc)
    : (StorageState, BestBids, BidPc)
  {
    var slot := bid.message.slot;
    match pc
    case AtWhitelist =>
      if bid.message.value == 0 then (st, best, BidDone(Err(ZeroBid)))
      else if bid.message.builderPubkey !in st.whitelist then (st, best, BidDone(Err(UnauthorizedBuilder)))
      else (st, best, AtHead)
    case AtHead =>
      (st, best, if NextSlot(st.headSlot) != slot then BidDone(Err(InvalidSlot)) else AtAttributes)
    case AtAttributes =>
      (st, best, if st.attributes.prevRandao != bid.payload.prevRandao
                 then BidDone(Err(InvalidPayloadAttributes)) else AtDuty)
    case AtDuty =>
      var duty := FindDuty(st.duties, slot);
      (st, best, if duty.None? then BidDone(Err(DutyNotFound))
                 else if !env.bidSigned(bid) then BidDone(Err(InvalidBuilderSignature))
                 else AtCompare(duty.value))
    case AtCompare(duty) =>
      if Beats(best, slot, bid) then (st, best[slot := bid], AtStore(duty))
      else (st, best, BidDone(Err(BidValueNotHighEnough(bid.message.value, best[slot].message.value))))
    case AtStore(duty) =>
      (st.(blinded := st.blinded[duty.pubkey := bid.ToResponse()]), best, BidDone(Ok(())))
    case BidDone(_) => (st, best, pc)
  }

  function AdvanceRetrieve(st: StorageState, best: BestBids, slot: U64, parentHash: B256, pubkey: PublicKey,
                           pc: RetrievePc): RetrievePc
  {
    match pc
    case AtRegistration => if pubkey !in st.registrations then RetrieveFailed(UnauthorizedGetHeader) else AtHeaderDuty
    case AtHeaderDuty =>
      var duty := FindDuty(st.duties, slot);
      if duty.None? then RetrieveFailed(DutyNotFound)
      else if duty.value.pubkey != pubkey then RetrieveFailed(UnauthorizedGetHeader)
      else AtHeaderHead
    case AtHeaderHead => if NextSlot(st.headSlot) != slot then RetrieveFailed(InvalidSlot) else AtBest
    case AtBest =>
      if slot !in best then RetrieveFailed(BidNotFound(slot))
      else if best[slot].message.parentHash != parentHash then RetrieveFailed(NoBidFound)
      else AtSecondBest(best[slot])
    case AtSecondBest(first) => Retrieved(first, if slot in best then Some(best[slot]) else None)
    case Retrieved(_, _) => pc
    case RetrieveFailed(_) => pc
  }

  function AdvanceUnblind(env: Env, st: StorageState, slot: U64, index: U64, blockHash: B256, signature: Signature,
                          pc: UnblindPc)
    : (StorageState, UnblindPc)
  {
    match pc
    case AtUnblindDuty =>
      var duty := FindDuty(st.duties, slot);
      (st, if duty.None? then Unblinded(Err(DutyNotFound))
           else if duty.value.validatorIndex != index
               then Unblinded(Err(ProposerIndexMismatch(duty.value.validatorIndex, index)))
           else AtUnblindRegistration(duty.value))
    case AtUnblindRegistration(duty) =>
      (st, if duty.pubkey !in st.registrations then Unblinded(Err(UnauthorizedSubmission))
           else if !env.revealSigned(duty.pubkey, slot, index, blockHash, signature)
               then Unblinded(Err(InvalidValidatorSignature))
           else AtResponse(duty))
    case AtResponse(duty) =>
      (st, if duty.pubkey !in st.blinded then Unblinded(Err(NoBlindedBlockResponse))
           else if st.blinded[duty.pubkey].payload.blockHash != blockHash then Unblinded(Err(BlockHashMismatch))
           else AtDeliver(st.blinded[duty.pubkey]))
    case AtDeliver(response) => (st.(delivered := st.delivered + [blockHash]), Unblinded(Ok(response)))
    case Unblinded(_) => (st, pc)
  }

  function Filtered(earlier: Option<seq<ProposerDuty>>, kept: seq<ProposerDuty>): SyncPc {
    if earlier.None? then AwaitNext(kept) else AtCommit(earlier.value + kept)
  }

  function AdvanceSync(st: StorageState, pc: SyncPc): (StorageState, SyncPc) {
    match pc
    case Filtering(earlier, started, todo, kept) =>
      (st, if !started then if st.registrations == map[] then Filtered(earlier, []) else pc.(started := true)
           else if todo == [] then Filtered(earlier, kept)
           else pc.(todo := todo[1..], kept := kept + if todo[0].pubkey in st.registrations then [todo[0]] else []))
    case AtCommit(duties) => (st.(duties := duties), SyncDone(true))
    case AwaitCurrent => (st, pc)
    case AwaitNext(_) => (st, pc)
    case SyncDone(_) => (st, pc)
  }

  function AnswerSync(pc: SyncPc, reply: Option<seq<ProposerDuty>>): SyncPc {
    match pc
    case AwaitCurrent => if reply.Some? then Filtering(None, false, reply.value, []) else SyncDone(false)
    case AwaitNext(current) =>
      if reply.Some? then Filtering(Some(current), false, reply.value, []) else AtCommit(current)
    case _ => pc
  }

  function AdvanceTask(env: Env, s: System, t: nat): System
    requires t < |s.tasks|
  {
    match s.tasks[t]
    case Bidding(bid, pc) =>
      var (storage, best, pc') := AdvanceBid(env, s.storage, s.best, bid, pc);
      System(storage, best, s.tasks[t := Bidding(bid, pc')])
    case Retrieving(slot, parentHash, pubkey, pc) =>
      s.(tasks := s.tasks[t := Retrieving(slot, parentHash, pubkey,
                                          AdvanceRetrieve(s.storage, s.best, slot, parentHash, pubkey, pc))])
    case Unblinding(slot, index, blockHash, signature, pc) =>
      var (storage, pc') := AdvanceUnblind(env, s.storage, slot, index, blockHash, signature, pc);
      System(storage, s.best, s.tasks[t := Unblinding(slot, index, blockHash, signature, pc')])
    case Syncing(epoch, pc) =>
      var (storage, pc') := AdvanceSync(s.storage, pc);
      System(storage, s.best, s.tasks[t := Syncing(epoch, pc')])
  }

  function Step(env: Env, s: System, e: Event): System {
    match e
    case BeginBid(bid) => s.(tasks := s.tasks + [Bidding(bid, AtWhitelist)])
    case BeginRetrieve(slot, parentHash, pubkey) =>
      s.(tasks := s.tasks + [Retrieving(slot, parentHash, pubkey, AtRegistration)])
    case BeginUnblind(slot, index, blockHash, signature) =>
      s.(tasks := s.tasks + [Unblinding(slot, index, blockHash, signature, AtUnblindDuty)])
    case BeginSync(epoch) => s.(tasks := s.tasks + [Syncing(epoch, AwaitCurrent)])
    case Advance(t) => if t < |s.tasks| then AdvanceTask(env, s, t) else s
    case DutiesReply(t, reply) =>
      if t < |s.tasks| && s.tasks[t].Syncing? then
        s.(tasks := s.tasks[t := Syncing(s.tasks[t].epoch, AnswerSync(s.tasks[t].syncPc, reply))])
      else s
    case HeadSeen(head) => s.(storage := s.storage.(headSlot := head))
    case AttributesSeen(attributes) => s.(storage := s.storage.(attributes := attributes))
    case RegisterValidator(registration) => s.(storage := Register(env, s.storage, registration))
    case Evict(slot) => s.(best := s.best - {slot})
  }

  function Run(env: Env, s: System, events: seq<Event>): System {
    if events == [] then s
    else Step(env, Run(env, s, events[..|events| - 1]), events[|events| - 1])
  }

  /** A run with all its intermediate states: `states[i]` is where event `i` finds the relay. */
  datatype Trace = Trace(states: seq<System>, events: seq<Event>)

  ghost predicate IsRun(env: Env, whitelist: seq<PublicKey>, tr: Trace) {
    && |tr.states| == |tr.events| + 1
    && tr.states[0] == Start(whitelist)
    && forall i: nat :: i < |tr.events| ==> Linked(env, tr, i)
  }

  ghost predicate Linked(env: Env, tr: Trace, i: nat)
    requires i < |tr.events| && i + 1 < |tr.states|
  {
    tr.states[i + 1] == Step(env, tr.states[i], tr.events[i])
  }

  /** Every sequence of events has its trace, and the trace ends where Run ends. */
  lemma {:induction false} TraceOf(env: Env, whitelist: seq<PublicKey>, events: seq<Event>) returns (tr: Trace)
    ensures IsRun(env, whitelist, tr) && tr.events == events
    ensures forall i :: 0 <= i <= |events| ==> tr.states[i] == Run(env, Start(whitelist), events[..i])
  {
    if events == [] {
      tr := Trace([Start(whitelist)], []);
    } else {
      var n := |events| - 1;
      var shorter := TraceOf(env, whitelist, events[..n]);
      tr := Trace(shorter.states + [Step(env, shorter.states[n], events[n])], events);
      assert events[..n][..n] == events[..n];
      assert events[..n + 1] == events;
      forall i | 0 <= i <= n ensures tr.states[i] == Run(env, Start(whitelist), events[..i]) {
        assert events[..n][..i] == events[..i];
      }
      forall i: nat | i < |events| ensures Linked(env, tr, i) {
        if i < n { assert Linked(env, shorter, i); }
      }
    }
  }

  lemma {:induction false} RunConcat(env: Env, s: System, a: seq<Event>, b: seq<Event>)
    ensures Run(env, s, a + b) == Run(env, Run(env, s, a), b)
  {
    if b == [] {
      assert a + b == a;
    } else {
      var n := |b| - 1;
      assert (a + b)[..|a + b| - 1] == a + b[..n];
      RunConcat(env, s, a, b[..n]);
    }
  }

  /** A task's step leaves every other task where it was. */
  lemma OthersStand(env: Env, s: System, t: nat)
    requires t < |s.tasks|
    ensures |AdvanceTask(env, s, t).tasks| == |s.tasks|
    ensures forall u: nat :: u < |s.tasks| && u != t ==> AdvanceTask(env, s, t).tasks[u] == s.tasks[u]
  {
  }

  function Alone(env: Env, s: System, t: nat, steps: nat): System
    decreases steps
  {
    if steps == 0 then s else Step(env, Alone(env, s, t, steps - 1), Advance(t))
  }

  /** The first four steps of a submission are the guards of the use case, in order. */
  lemma ScreenedAlone(env: Env, s: System, bid: BidSubmission)
    ensures var screened := Screen(env, s.storage, bid);
            Alone(env, Step(env, s, BeginBid(bid)), |s.tasks|, 4)
            == s.(tasks := s.tasks + [
                 Bidding(bid, if screened.Ok? then AtCompare(screened.value) else BidDone(Err(screened.error)))])
  {
  }

  /** A bid submission that is not interrupted is the use case's call. */
  lemma UninterruptedBid(env: Env, s: System, bid: BidSubmission)
    ensures var t := |s.tasks|;
            var out := SubmitBid(env, s.storage, s.best, bid);
            Alone(env, Step(env, s, BeginBid(bid)), t, 6)
            == System(out.storage, out.best, s.tasks + [Bidding(bid, BidDone(out.result))])
  {
    ScreenedAlone(env, s, bid);
  }

  /** An uninterrupted retrieval signs the bid GetHeader picks and reads that same bid again. */
  lemma UninterruptedRetrieve(env: Env, s: System, slot: U64, parentHash: B256, pubkey: PublicKey)
    ensures var t := |s.tasks|;
            var header := GetHeader(env, s.storage, s.best, slot, parentHash, pubkey);
            var done := Alone(env, Step(env, s, BeginRetrieve(slot, parentHash, pubkey)), t, 5);
            && done.storage == s.storage && done.best == s.best
            && done.tasks == s.tasks + [Retrieving(slot, parentHash, pubkey,
                 if header.Ok? then Retrieved(s.best[slot], Some(s.best[slot])) else RetrieveFailed(header.error))]
            && (header.Ok? ==> header.value == SignBid(env, s.best[slot]))
  {
  }

  /** An uninterrupted reveal is the use case's call. */
  lemma UninterruptedUnblind(env: Env, s: System, slot: U64, index: U64, blockHash: B256, signature: Signature)
    ensures var t := |s.tasks|;
            var out := Unblind(env, s.storage, slot, index, blockHash, signature);
            Alone(env, Step(env, s, BeginUnblind(slot, index, blockHash, signature)), t, 4)
            == System(s.storage.(delivered := s.storage.delivered + if out.Ok? then [blockHash] else []), s.best,
                      s.tasks + [Unblinding(slot, index, blockHash, signature, Unblinded(out))])
  {
  }
}
