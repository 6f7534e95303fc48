/** Where bids come from, in every interleaving.  Each predicate names moments of one run: the event
    taken at that index and what the shared stores held when it was taken. */
module Provenance {
  import opened Entities
  import opened Datastore
  import opened InterleavedRelay

  /** At moment `i` the submission `t` of `bid` takes its step from `pc`. */
  predicate Moves(tr: Trace, i: nat, t: nat, bid: BidSubmission, pc: BidPc) {
    && i < |tr.events| && i < |tr.states|
    && tr.events[i] == Advance(t)
    && t < |tr.states[i].tasks|
    && tr.states[i].tasks[t] == Bidding(bid, pc)
  }

  predicate ReadsHead(tr: Trace, i: nat, t: nat, bid: BidSubmission) {
    Moves(tr, i, t, bid, AtHead) && NextSlot(tr.states[i].storage.headSlot) == bid.message.slot
  }

  predicate ReadsAttributes(tr: Trace, i: nat, t: nat, bid: BidSubmission) {
    Moves(tr, i, t, bid, AtAttributes) && tr.states[i].storage.attributes.prevRandao == bid.payload.prevRandao
  }

  predicate ReadsDuty(env: Env, tr: Trace, i: nat, t: nat, bid: BidSubmission, duty: ProposerDuty) {
    && Moves(tr, i, t, bid, AtDuty)
    && FindDuty(tr.states[i].storage.duties, bid.message.slot) == Some(duty)
    && env.bidSigned(bid)
  }

  predicate Wins(tr: Trace, i: nat, t: nat, bid: BidSubmission, duty: ProposerDuty) {
    Moves(tr, i, t, bid, AtCompare(duty)) && Beats(tr.states[i].best, bid.message.slot, bid)
  }

  predicate Stores(tr: Trace, i: nat, t: nat, bid: BidSubmission, duty: ProposerDuty) {
    Moves(tr, i, t, bid, AtStore(duty))
  }

  ghost predicate HeadMatched(tr: Trace, now: nat, t: nat, bid: BidSubmission) {
    exists i: nat :: i < now && ReadsHead(tr, i, t, bid)
  }

  ghost predicate AttributesMatched(tr: Trace, now: nat, t: nat, bid: BidSubmission) {
    exists i: nat :: i < now && ReadsAttributes(tr, i, t, bid) && HeadMatched(tr, i, t, bid)
  }

  ghost predicate DutyFound(env: Env, tr: Trace, now: nat, t: nat, bid: BidSubmission, duty: ProposerDuty) {
    exists i: nat :: i < now && ReadsDuty(env, tr, i, t, bid, duty) && AttributesMatched(tr, i, t, bid)
  }

  /** Before `now` the submission `t` of `bid` read a head just before its slot, then matching
      attributes, then a duty of its slot and verified its signature, then won its slot. */
  ghost predicate WonTheSlot(env: Env, tr: Trace, now: nat, t: nat, bid: BidSubmission, duty: ProposerDuty) {
    exists i: nat :: i < now && Wins(tr, i, t, bid, duty) && DutyFound(env, tr, i, t, bid, duty)
  }

  ghost predicate WonAndStored(env: Env, tr: Trace, now: nat, t: nat, bid: BidSubmission, duty: ProposerDuty) {
    exists i: nat :: i < now && Stores(tr, i, t, bid, duty) && WonTheSlot(env, tr, i, t, bid, duty)
  }

  predicate Eligible(whitelist: seq<PublicKey>, bid: BidSubmission) {
    bid.message.value != 0 && bid.message.builderPubkey in whitelist
  }

  ghost predicate CachedFromWinner(env: Env, whitelist: seq<PublicKey>, tr: Trace, now: nat, slot: U64,
                                   bid: BidSubmission)
  {
    && bid.message.slot == slot
    && Eligible(whitelist, bid)
    && exists t: nat, duty: ProposerDuty :: WonTheSlot(env, tr, now, t, bid, duty)
  }

  ghost predicate StoredFromWinner(env: Env, whitelist: seq<PublicKey>, tr: Trace, now: nat, pubkey: PublicKey,
                                   response: BlindedBlockResponse)
  {
    exists t: nat, bid: BidSubmission, duty: ProposerDuty ::
      && WonAndStored(env, tr, now, t, bid, duty)
      && Eligible(whitelist, bid)
      && duty.pubkey == pubkey
      && response.Carries(bid)
  }

  ghost predicate BidHistory(env: Env, whitelist: seq<PublicKey>, tr: Trace, now: nat, t: nat, bid: BidSubmission,
                             pc: BidPc)
  {
    match pc
    case AtWhitelist => true
    case AtHead => Eligible(whitelist, bid)
    case AtAttributes => Eligible(whitelist, bid) && HeadMatched(tr, now, t, bid)
    case AtDuty => Eligible(whitelist, bid) && AttributesMatched(tr, now, t, bid)
    case AtCompare(duty) => Eligible(whitelist, bid) && DutyFound(env, tr, now, t, bid, duty)
    case AtStore(duty) => Eligible(whitelist, bid) && WonTheSlot(env, tr, now, t, bid, duty)
    case BidDone(_) => true
  }

  ghost predicate RevealedFromWinner(env: Env, whitelist: seq<PublicKey>, tr: Trace, now: nat, blockHash: B256,
                                     response: BlindedBlockResponse)
  {
    response.payload.blockHash == blockHash && exists pk :: StoredFromWinner(env, whitelist, tr, now, pk, response)
  }

  ghost predicate RevealHistory(env: Env, whitelist: seq<PublicKey>, tr: Trace, now: nat, blockHash: B256,
                                pc: UnblindPc)
  {
    && (pc.AtDeliver? ==> RevealedFromWinner(env, whitelist, tr, now, blockHash, pc.response))
    && (pc.Unblinded? && pc.result.Ok? ==> RevealedFromWinner(env, whitelist, tr, now, blockHash, pc.result.value))
  }

  ghost predicate TaskHistory(env: Env, whitelist: seq<PublicKey>, tr: Trace, now: nat, t: nat, task: Task) {
    match task
    case Bidding(bid, pc) => BidHistory(env, whitelist, tr, now, t, bid, pc)
    case Unblinding(_, _, blockHash, _, pc) => RevealHistory(env, whitelist, tr, now, blockHash, pc)
    case _ => true
  }

  lemma StoredRemembered(env: Env, whitelist: seq<PublicKey>, tr: Trace, now: nat, pubkey: PublicKey,
                         response: BlindedBlockResponse)
    requires StoredFromWinner(env, whitelist, tr, now, pubkey, response)
    ensures StoredFromWinner(env, whitelist, tr, now + 1, pubkey, response)
  {
    var t: nat, bid: BidSubmission, duty: ProposerDuty :| && WonAndStored(env, tr, now, t, bid, duty)
      && Eligible(whitelist, bid) && duty.pubkey == pubkey && response.Carries(bid);
    assert WonAndStored(env, tr, now + 1, t, bid, duty);
  }

  lemma RevealRemembered(env: Env, whitelist: seq<PublicKey>, tr: Trace, now: nat, blockHash: B256,
                         response: BlindedBlockResponse)
    requires RevealedFromWinner(env, whitelist, tr, now, blockHash, response)
    ensures RevealedFromWinner(env, whitelist, tr, now + 1, blockHash, response)
  {
    var pk :| StoredFromWinner(env, whitelist, tr, now, pk, response);
    StoredRemembered(env, whitelist, tr, now, pk, response);
  }

  lemma TaskRemembered(env: Env, whitelist: seq<PublicKey>, tr: Trace, now: nat, t: nat, task: Task)
    requires TaskHistory(env, whitelist, tr, now, t, task)
    ensures TaskHistory(env, whitelist, tr, now + 1, t, task)
  {
    if task.Unblinding? {
      var pc := task.unblindPc;
      if pc.AtDeliver? { RevealRemembered(env, whitelist, tr, now, task.blockHash, pc.response); }
      if pc.Unblinded? && pc.result.Ok? { RevealRemembered(env, whitelist, tr, now, task.blockHash, pc.result.value); }
    }
  }

  /** One more step of a bid: whatever it establishes is established at this very moment. */
  lemma BidStep(env: Env, whitelist: seq<PublicKey>, tr: Trace, now: nat, t: nat, bid: BidSubmission, pc: BidPc)
    requires Moves(tr, now, t, bid, pc)
    requires tr.states[now].storage.whitelist == whitelist
    requires BidHistory(env, whitelist, tr, now, t, bid, pc)
    ensures var s := tr.states[now];
            var (storage, best, pc') := AdvanceBid(env, s.storage, s.best, bid, pc);
            && BidHistory(env, whitelist, tr, now + 1, t, bid, pc')
            && (best == s.best || (best == s.best[bid.message.slot := bid]
                                   && CachedFromWinner(env, whitelist, tr, now + 1, bid.message.slot, bid)))
            && (storage == s.storage
                || (pc.AtStore?
                    && storage == s.storage.(blinded := s.storage.blinded[pc.duty.pubkey := bid.ToResponse()])
                    && StoredFromWinner(env, whitelist, tr, now + 1, pc.duty.pubkey, bid.ToResponse())))
  {
    var s := tr.states[now];
    match pc
    case AtWhitelist =>
    case AtHead => if NextSlot(s.storage.headSlot) == bid.message.slot { assert ReadsHead(tr, now, t, bid); }
    case AtAttributes =>
      if s.storage.attributes.prevRandao == bid.payload.prevRandao { assert ReadsAttributes(tr, now, t, bid); }
    case AtDuty =>
      var duty := FindDuty(s.storage.duties, bid.message.slot);
      if duty.Some? && env.bidSigned(bid) { assert ReadsDuty(env, tr, now, t, bid, duty.value); }
    case AtCompare(duty) =>
      if Beats(s.best, bid.message.slot, bid) {
        assert Wins(tr, now, t, bid, duty);
        assert WonTheSlot(env, tr, now + 1, t, bid, duty);
      }
    case AtStore(duty) =>
      assert Stores(tr, now, t, bid, duty);
      assert WonAndStored(env, tr, now + 1, t, bid, duty);
    case BidDone(_) =>
  }

  ghost predicate StoresAccounted(env: Env, whitelist: seq<PublicKey>, tr: Trace, now: nat, s: System) {
    && s.storage.whitelist == whitelist
    && (forall slot :: slot in s.best ==> CachedFromWinner(env, whitelist, tr, now, slot, s.best[slot]))
    && (forall pk :: pk in s.storage.blinded ==> StoredFromWinner(env, whitelist, tr, now, pk, s.storage.blinded[pk]))
  }

  lemma RevealStep(env: Env, whitelist: seq<PublicKey>, tr: Trace, now: nat, s: System, task: Task)
    requires task.Unblinding?
    requires StoresAccounted(env, whitelist, tr, now + 1, s)
    requires RevealHistory(env, whitelist, tr, now + 1, task.blockHash, task.unblindPc)
    ensures RevealHistory(env, whitelist, tr, now + 1, task.blockHash,
                          AdvanceUnblind(env, s.storage, task.slot, task.index, task.blockHash, task.signature,
                                         task.unblindPc).1)
  {
    var pc' := AdvanceUnblind(env, s.storage, task.slot, task.index, task.blockHash, task.signature, task.unblindPc).1;
    match task.unblindPc
    case AtUnblindDuty => assert !pc'.AtDeliver? && !(pc'.Unblinded? && pc'.result.Ok?);
    case AtUnblindRegistration(_) => assert !pc'.AtDeliver? && !(pc'.Unblinded? && pc'.result.Ok?);
    case AtResponse(duty) =>
      if pc'.AtDeliver? {
        assert StoredFromWinner(env, whitelist, tr, now + 1, duty.pubkey, pc'.response);
      }
    case AtDeliver(response) => assert pc' == Unblinded(Ok(response));
    case Unblinded(_) => assert pc' == task.unblindPc;
  }

  lemma StoresRemembered(env: Env, whitelist: seq<PublicKey>, tr: Trace, now: nat, s: System)
    requires StoresAccounted(env, whitelist, tr, now, s)
    ensures StoresAccounted(env, whitelist, tr, now + 1, s)
  {
    forall slot | slot in s.best ensures CachedFromWinner(env, whitelist, tr, now + 1, slot, s.best[slot]) {
      var t: nat, duty: ProposerDuty :| WonTheSlot(env, tr, now, t, s.best[slot], duty);
      assert WonTheSlot(env, tr, now + 1, t, s.best[slot], duty);
    }
    forall pk | pk in s.storage.blinded
      ensures StoredFromWinner(env, whitelist, tr, now + 1, pk, s.storage.blinded[pk])
    {
      StoredRemembered(env, whitelist, tr, now, pk, s.storage.blinded[pk]);
    }
  }

  ghost predicate Accounted(env: Env, whitelist: seq<PublicKey>, tr: Trace, now: nat)
    requires now < |tr.states|
  {
    && StoresAccounted(env, whitelist, tr, now, tr.states[now])
    && forall t: nat :: t < |tr.states[now].tasks| ==> TaskHistory(env, whitelist, tr, now, t, tr.states[now].tasks[t])
  }

  lemma BidTaskStep(env: Env, whitelist: seq<PublicKey>, tr: Trace, now: nat, t: nat)
    requires now < |tr.events| && |tr.states| == |tr.events| + 1
    requires tr.events[now] == Advance(t) && t < |tr.states[now].tasks|
    requires Accounted(env, whitelist, tr, now)
    requires tr.states[now].tasks[t].Bidding?
    ensures var s' := AdvanceTask(env, tr.states[now], t);
            && StoresAccounted(env, whitelist, tr, now + 1, s')
            && TaskHistory(env, whitelist, tr, now + 1, t, s'.tasks[t])
  {
    var s := tr.states[now];
    StoresRemembered(env, whitelist, tr, now, s);
    assert TaskHistory(env, whitelist, tr, now, t, s.tasks[t]);
    BidStep(env, whitelist, tr, now, t, s.tasks[t].bid, s.tasks[t].bidPc);
  }

  predicate SameStores(s: System, s': System) {
    s'.best == s.best && s'.storage.whitelist == s.storage.whitelist && s'.storage.blinded == s.storage.blinded
  }

  lemma RevealMoves(env: Env, s: System, t: nat)
    requires t < |s.tasks| && s.tasks[t].Unblinding?
    ensures var task := s.tasks[t];
            && SameStores(s, AdvanceTask(env, s, t))
            && AdvanceTask(env, s, t).tasks[t] == task.(unblindPc :=
                 AdvanceUnblind(env, s.storage, task.slot, task.index, task.blockHash, task.signature,
                                task.unblindPc).1)
  {
  }

  lemma ReadersLeaveStores(env: Env, s: System, t: nat)
    requires t < |s.tasks| && (s.tasks[t].Retrieving? || s.tasks[t].Syncing?)
    ensures SameStores(s, AdvanceTask(env, s, t))
    ensures AdvanceTask(env, s, t).tasks[t].Retrieving? || AdvanceTask(env, s, t).tasks[t].Syncing?
  {
  }

  lemma SameStoresRemembered(env: Env, whitelist: seq<PublicKey>, tr: Trace, now: nat, s: System, s': System)
    requires StoresAccounted(env, whitelist, tr, now, s) && SameStores(s, s')
    ensures StoresAccounted(env, whitelist, tr, now + 1, s')
  {
    StoresRemembered(env, whitelist, tr, now, s);
  }

  lemma RevealTaskStep(env: Env, whitelist: seq<PublicKey>, tr: Trace, now: nat, s: System, t: nat, task: Task)
    requires task.Unblinding?
    requires StoresAccounted(env, whitelist, tr, now, s)
    requires TaskHistory(env, whitelist, tr, now, t, task)
    ensures TaskHistory(env, whitelist, tr, now + 1, t, task.(unblindPc :=
              AdvanceUnblind(env, s.storage, task.slot, task.index, task.blockHash, task.signature, task.unblindPc).1))
  {
    StoresRemembered(env, whitelist, tr, now, s);
    TaskRemembered(env, whitelist, tr, now, t, task);
    RevealStep(env, whitelist, tr, now, s, task);
  }

  /** The step of one task, seen from the whole relay. */
  lemma TaskStep(env: Env, whitelist: seq<PublicKey>, tr: Trace, now: nat, t: nat)
    requires now < |tr.events| && |tr.states| == |tr.events| + 1
    requires tr.events[now] == Advance(t) && t < |tr.states[now].tasks|
    requires Accounted(env, whitelist, tr, now)
    ensures StoresAccounted(env, whitelist, tr, now + 1, AdvanceTask(env, tr.states[now], t))
    ensures TaskHistory(env, whitelist, tr, now + 1, t, AdvanceTask(env, tr.states[now], t).tasks[t])
  {
    var s := tr.states[now];
    assert TaskHistory(env, whitelist, tr, now, t, s.tasks[t]);
    if s.tasks[t].Bidding? {
      BidTaskStep(env, whitelist, tr, now, t);
    } else if s.tasks[t].Unblinding? {
      RevealMoves(env, s, t);
      SameStoresRemembered(env, whitelist, tr, now, s, AdvanceTask(env, s, t));
      RevealTaskStep(env, whitelist, tr, now, s, t, s.tasks[t]);
    } else {
      ReadersLeaveStores(env, s, t);
      SameStoresRemembered(env, whitelist, tr, now, s, AdvanceTask(env, s, t));
    }
  }

  /** Only the steps of bids, and expiry, touch what the cache and the response map hold. */
  predicate Untouched(s: System, s': System) {
    && s'.storage.whitelist == s.storage.whitelist
    && s'.storage.blinded == s.storage.blinded
    && (forall slot :: slot in s'.best ==> slot in s.best && s'.best[slot] == s.best[slot])
    && |s.tasks| <= |s'.tasks|
    && (forall t: nat :: t < |s.tasks| ==> s'.tasks[t] == s.tasks[t] || s'.tasks[t].Syncing?)
    && (forall t: nat :: |s.tasks| <= t < |s'.tasks| ==> Fresh(s'.tasks[t]))
  }

  predicate Fresh(task: Task) {
    match task
    case Bidding(_, pc) => pc.AtWhitelist?
    case Retrieving(_, _, _, pc) => pc.AtRegistration?
    case Unblinding(_, _, _, _, pc) => pc.AtUnblindDuty?
    case Syncing(_, pc) => pc.AwaitCurrent?
  }

  lemma OtherEvents(env: Env, s: System, e: Event)
    requires !e.Advance? || e.task >= |s.tasks|
    ensures Untouched(s, Step(env, s, e))
  {
  }

  lemma OneMoreStep(env: Env, whitelist: seq<PublicKey>, tr: Trace, now: nat, t: nat, s': System)
    requires now < |tr.events| && |tr.states| == |tr.events| + 1
    requires tr.events[now] == Advance(t) && t < |tr.states[now].tasks|
    requires s' == AdvanceTask(env, tr.states[now], t)
    requires Accounted(env, whitelist, tr, now)
    ensures forall u: nat :: u < |s'.tasks| ==> TaskHistory(env, whitelist, tr, now + 1, u, s'.tasks[u])
  {
    TaskStep(env, whitelist, tr, now, t);
    OthersStand(env, tr.states[now], t);
    forall u: nat | u < |s'.tasks| ensures TaskHistory(env, whitelist, tr, now + 1, u, s'.tasks[u]) {
      if u != t { TaskRemembered(env, whitelist, tr, now, u, tr.states[now].tasks[u]); }
    }
  }

  lemma OneOtherEvent(env: Env, whitelist: seq<PublicKey>, tr: Trace, now: nat, s': System)
    requires now < |tr.events| && |tr.states| == |tr.events| + 1
    requires Untouched(tr.states[now], s')
    requires Accounted(env, whitelist, tr, now)
    ensures StoresAccounted(env, whitelist, tr, now + 1, s')
    ensures forall u: nat :: u < |s'.tasks| ==> TaskHistory(env, whitelist, tr, now + 1, u, s'.tasks[u])
  {
    var s := tr.states[now];
    StoresRemembered(env, whitelist, tr, now, s);
    forall u: nat | u < |s'.tasks| ensures TaskHistory(env, whitelist, tr, now + 1, u, s'.tasks[u]) {
      if u < |s.tasks| { TaskRemembered(env, whitelist, tr, now, u, s.tasks[u]); }
    }
  }

  lemma OneMoreEvent(env: Env, whitelist: seq<PublicKey>, tr: Trace, now: nat)
    requires now < |tr.events| && |tr.states| == |tr.events| + 1
    requires Linked(env, tr, now)
    requires Accounted(env, whitelist, tr, now)
    ensures Accounted(env, whitelist, tr, now + 1)
  {
    var s, e := tr.states[now], tr.events[now];
    if e.Advance? && e.task < |s.tasks| {
      TaskStep(env, whitelist, tr, now, e.task);
      OneMoreStep(env, whitelist, tr, now, e.task, tr.states[now + 1]);
    } else {
      OtherEvents(env, s, e);
      OneOtherEvent(env, whitelist, tr, now, tr.states[now + 1]);
    }
  }

  /** At every moment of every run, each cached best bid and each stored response comes from a
      submission of nonzero value by a whitelisted builder that passed each check when it read the
      store concerned and then won its slot; so does every response a reveal holds or has returned. */
  lemma {:induction false} EveryBidIsAccounted(env: Env, whitelist: seq<PublicKey>, tr: Trace, now: nat)
    requires IsRun(env, whitelist, tr) && now < |tr.states|
    ensures Accounted(env, whitelist, tr, now)
  {
    if now > 0 {
      EveryBidIsAccounted(env, whitelist, tr, now - 1);
      assert Linked(env, tr, now - 1);
      OneMoreEvent(env, whitelist, tr, now - 1);
    }
  }

  /** The reveal's part, spelled out: whatever a reveal returned is the payload of a bid that was
      eligible, won its slot and was stored, and it has the block hash that was asked for. */
  lemma EveryRevealIsAWinner(env: Env, whitelist: seq<PublicKey>, tr: Trace, now: nat, t: nat)
    requires IsRun(env, whitelist, tr) && now < |tr.states| && t < |tr.states[now].tasks|
    requires var task := tr.states[now].tasks[t];
             task.Unblinding? && task.unblindPc.Unblinded? && task.unblindPc.result.Ok?
    ensures var task := tr.states[now].tasks[t];
            exists call: nat, bid: BidSubmission, duty: ProposerDuty ::
              && WonAndStored(env, tr, now, call, bid, duty)
              && task.unblindPc.result.value.payload == bid.payload
              && task.unblindPc.result.value.blobs == Some(bid.blobs)
              && bid.payload.blockHash == task.blockHash
              && bid.message.value != 0 && bid.message.builderPubkey in whitelist
  {
    EveryBidIsAccounted(env, whitelist, tr, now);
    var task := tr.states[now].tasks[t];
    assert TaskHistory(env, whitelist, tr, now, t, task);
    var pk :| StoredFromWinner(env, whitelist, tr, now, pk, task.unblindPc.result.value);
  }
}
