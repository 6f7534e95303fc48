/** The relay when calls do not overlap: each call runs to its end before the next begins.  Here the
    two indexes always agree, and a header, once handed out, can be redeemed. */
module AtomicRelay {
  import opened Entities
  import opened Datastore
  import opened DutySync
  import opened UseCases
  import opened WinLog

  datatype Call =
    | Submit(bid: BidSubmission)
    | Retrieve(slot: U64, parentHash: B256, pubkey: PublicKey)
    | Reveal(slot: U64, index: U64, blockHash: B256, signature: Signature)
    | RegisterValidator(registration: SignedRegistration)
    | RefreshDuties(current: Option<seq<ProposerDuty>>, next: Option<seq<ProposerDuty>>)
    | HeadSeen(head: U64)
    | AttributesSeen(attributes: PayloadAttributes)
    | Evict(evicted: U64)

  datatype Relay = Relay(storage: StorageState, best: BestBids)

  function Fresh(whitelist: seq<PublicKey>): Relay {
    Relay(EmptyStorage(whitelist), map[])
  }

  function Apply(env: Env, r: Relay, call: Call): Relay {
    match call
    case Submit(bid) => var out := SubmitBid(env, r.storage, r.best, bid); Relay(out.storage, out.best)
    case Retrieve(_, _, _) => r
    case Reveal(slot, index, blockHash, signature) =>
      if Unblind(env, r.storage, slot, index, blockHash, signature).Ok?
      then r.(storage := r.storage.(delivered := r.storage.delivered + [blockHash])) else r
    case RegisterValidator(registration) => r.(storage := Register(env, r.storage, registration))
    case RefreshDuties(current, next) => r.(storage := SyncedDuties(r.storage, current, next))
    case HeadSeen(head) => r.(storage := r.storage.(headSlot := head))
    case AttributesSeen(attributes) => r.(storage := r.storage.(attributes := attributes))
    case Evict(slot) => r.(best := r.best - {slot})
  }

  function Play(env: Env, r: Relay, calls: seq<Call>): Relay {
    if calls == [] then r else Apply(env, Play(env, r, calls[..|calls| - 1]), calls[|calls| - 1])
  }

  predicate AcceptsNow(env: Env, r: Relay, call: Call) {
    call.Submit? && Accepts(env, r.storage, r.best, call.bid)
  }

  /** The bids a run accepts, in order. */
  function Accepted(env: Env, r: Relay, calls: seq<Call>): seq<Win> {
    if calls == [] then []
    else
      var n := |calls| - 1;
      var now := Play(env, r, calls[..n]);
      Accepted(env, r, calls[..n])
      + if AcceptsNow(env, now, calls[n])
        then [Win(n, calls[n].bid, Screen(env, now.storage, calls[n].bid).value)] else []
  }

  lemma {:induction false} PlayConcat(env: Env, r: Relay, a: seq<Call>, b: seq<Call>)
    ensures Play(env, r, a + b) == Play(env, Play(env, r, a), b)
  {
    if b == [] {
      assert a + b == a;
    } else {
      var n := |b| - 1;
      assert (a + b)[..|a + b| - 1] == a + b[..n];
      PlayConcat(env, r, a, b[..n]);
    }
  }

  /** Every accepted bid carried a signature that verified. */
  lemma {:induction false} AcceptedAreSigned(env: Env, r: Relay, calls: seq<Call>)
    ensures forall w :: w in Accepted(env, r, calls) ==> env.bidSigned(w.bid)
  {
    if calls != [] { AcceptedAreSigned(env, r, calls[..|calls| - 1]); }
  }

  ghost predicate Logged(r: Relay, log: seq<Win>) {
    && (forall slot :: slot in r.best ==> LastAt(log, slot).Some? && LastAt(log, slot).value.bid == r.best[slot])
    && (forall pk :: pk in r.storage.blinded <==> LastFor(log, pk).Some?)
    && (forall pk :: pk in r.storage.blinded ==> r.storage.blinded[pk].Carries(LastFor(log, pk).value.bid))
  }

  lemma LoggedWhenAccepted(r: Relay, log: seq<Win>, w: Win)
    requires Logged(r, log)
    ensures Logged(Relay(r.storage.(blinded := r.storage.blinded[w.duty.pubkey := w.bid.ToResponse()]),
                         r.best[w.Slot() := w.bid]), log + [w])
  {
    Grow(log, w);
  }

  lemma OnlyAcceptedBidsTouchIndexes(env: Env, r: Relay, call: Call)
    ensures var r' := Apply(env, r, call);
            if AcceptsNow(env, r, call) then
              var pubkey := Screen(env, r.storage, call.bid).value.pubkey;
              && r'.storage == r.storage.(blinded := r.storage.blinded[pubkey := call.bid.ToResponse()])
              && r'.best == r.best[call.bid.message.slot := call.bid]
            else
              && r'.storage.blinded == r.storage.blinded
              && r'.best == if call.Evict? then r.best - {call.evicted} else r.best
  {
  }

  lemma LoggedStep(env: Env, r: Relay, call: Call, log: seq<Win>, n: nat)
    requires Logged(r, log)
    ensures Logged(Apply(env, r, call),
                   log + if AcceptsNow(env, r, call)
                         then [Win(n, call.bid, Screen(env, r.storage, call.bid).value)] else [])
  {
    OnlyAcceptedBidsTouchIndexes(env, r, call);
    if AcceptsNow(env, r, call) {
      LoggedWhenAccepted(r, log, Win(n, call.bid, Screen(env, r.storage, call.bid).value));
    } else {
      assert log + [] == log;
    }
  }

  lemma {:induction false} RunIsLogged(env: Env, whitelist: seq<PublicKey>, calls: seq<Call>)
    ensures Logged(Play(env, Fresh(whitelist), calls), Accepted(env, Fresh(whitelist), calls))
  {
    if calls != [] {
      var n := |calls| - 1;
      RunIsLogged(env, whitelist, calls[..n]);
      var before, log := Play(env, Fresh(whitelist), calls[..n]), Accepted(env, Fresh(whitelist), calls[..n]);
      LoggedStep(env, before, calls[n], log, n);
    }
  }

  /** The beacon node never names two proposers for one slot. */
  ghost predicate RefreshesFollow(rota: U64 -> PublicKey, calls: seq<Call>) {
    forall i :: 0 <= i < |calls| && calls[i].RefreshDuties? ==>
      && (calls[i].current.Some? ==> FollowsRota(rota, calls[i].current.value))
      && (calls[i].next.Some? ==> FollowsRota(rota, calls[i].next.value))
  }

  lemma RefreshFollows(rota: U64 -> PublicKey, st: StorageState, current: Option<seq<ProposerDuty>>,
                       next: Option<seq<ProposerDuty>>)
    requires FollowsRota(rota, st.duties)
    requires current.Some? ==> FollowsRota(rota, current.value)
    requires next.Some? ==> FollowsRota(rota, next.value)
    ensures FollowsRota(rota, SyncedDuties(st, current, next).duties)
  {
    if current.Some? { FilterKeepsRegistered(st.registrations, current.value); }
    if next.Some? { FilterKeepsRegistered(st.registrations, next.value); }
  }

  lemma {:induction false} RunFollowsRota(env: Env, whitelist: seq<PublicKey>, calls: seq<Call>, rota: U64 -> PublicKey)
    requires RefreshesFollow(rota, calls)
    ensures FollowsRota(rota, Play(env, Fresh(whitelist), calls).storage.duties)
    ensures forall w :: w in Accepted(env, Fresh(whitelist), calls) ==> w.duty.pubkey == rota(w.Slot())
  {
    if calls != [] {
      var n := |calls| - 1;
      var call, r := calls[n], Play(env, Fresh(whitelist), calls[..n]);
      assert RefreshesFollow(rota, calls[..n]);
      RunFollowsRota(env, whitelist, calls[..n], rota);
      if call.RefreshDuties? { RefreshFollows(rota, r.storage, call.current, call.next); }
      if AcceptsNow(env, r, call) { FindDutyFindsFirst(r.storage.duties, call.bid.message.slot); }
    }
  }

  /** After every run, evictions included, and for every proposer: the response stored is exactly the
      payload and blobs of the last bid accepted for it, which is the best bid of its slot while cached. */
  lemma TwoIndexesAgree(env: Env, whitelist: seq<PublicKey>, calls: seq<Call>, rota: U64 -> PublicKey,
                        pubkey: PublicKey)
    requires RefreshesFollow(rota, calls)
    ensures var r := Play(env, Fresh(whitelist), calls);
            Agree(r.storage.blinded, r.best, Accepted(env, Fresh(whitelist), calls), pubkey)
  {
    var log := Accepted(env, Fresh(whitelist), calls);
    RunIsLogged(env, whitelist, calls);
    RunFollowsRota(env, whitelist, calls, rota);
    assert OneProposerPerSlot(log);
    if LastFor(log, pubkey).Some? { LastForIsLastAt(log, pubkey); }
  }

  lemma {:induction false} DutiesAreRegistered(env: Env, whitelist: seq<PublicKey>, calls: seq<Call>)
    ensures var st := Play(env, Fresh(whitelist), calls).storage;
            forall d :: d in st.duties ==> d.pubkey in st.registrations
  {
    if calls != [] {
      var n := |calls| - 1;
      DutiesAreRegistered(env, whitelist, calls[..n]);
      var st := Play(env, Fresh(whitelist), calls[..n]).storage;
      if calls[n].RefreshDuties? {
        if calls[n].current.Some? { FilterKeepsRegistered(st.registrations, calls[n].current.value); }
        if calls[n].next.Some? { FilterKeepsRegistered(st.registrations, calls[n].next.value); }
      }
    }
  }

  /** When a reveal succeeds, after any run: exactly when the slot has a duty with the given index, the
      signature verifies and the last bid accepted for that proposer has the given block hash.  It then
      returns that bid's payload and blobs. */
  lemma RevealSucceedsExactly(env: Env, whitelist: seq<PublicKey>, calls: seq<Call>, slot: U64, index: U64,
                              blockHash: B256, signature: Signature)
    ensures var st := Play(env, Fresh(whitelist), calls).storage;
            var duty := FindDuty(st.duties, slot);
            var out := Unblind(env, st, slot, index, blockHash, signature);
            (out.Ok? <==>
              && duty.Some? && duty.value.validatorIndex == index
              && env.revealSigned(duty.value.pubkey, slot, index, blockHash, signature)
              && LastFor(Accepted(env, Fresh(whitelist), calls), duty.value.pubkey).Some?
              && LastFor(Accepted(env, Fresh(whitelist), calls), duty.value.pubkey).value.bid.payload.blockHash
                  == blockHash)
            && (out.Ok? ==>
                 var bid := LastFor(Accepted(env, Fresh(whitelist), calls), duty.value.pubkey).value.bid;
                 out.value.payload == bid.payload && out.value.blobs == Some(bid.blobs))
  {
    RunIsLogged(env, whitelist, calls);
    DutiesAreRegistered(env, whitelist, calls);
    FindDutyFindsFirst(Play(env, Fresh(whitelist), calls).storage.duties, slot);
  }

  /** The head slot never decreases along the run. */
  predicate HeadNeverDecreases(env: Env, r: Relay, calls: seq<Call>) {
    calls != [] ==>
      var n := |calls| - 1;
      && HeadNeverDecreases(env, r, calls[..n])
      && (calls[n].HeadSeen? ==> Play(env, r, calls[..n]).storage.headSlot <= calls[n].head)
  }

  /** The head a bid of this slot was accepted at. */
  function HeadOf(slot: U64): U64 {
    if slot == 0 then U64_MAX else slot - 1
  }

  ghost predicate InHeadOrder(log: seq<Win>, head: U64) {
    && (forall i :: 0 <= i < |log| ==> HeadOf(log[i].Slot()) <= head)
    && (forall i, j :: 0 <= i < j < |log| ==> HeadOf(log[i].Slot()) <= HeadOf(log[j].Slot()))
  }

  lemma {:induction false} AcceptedInHeadOrder(env: Env, whitelist: seq<PublicKey>, calls: seq<Call>)
    requires HeadNeverDecreases(env, Fresh(whitelist), calls)
    ensures InHeadOrder(Accepted(env, Fresh(whitelist), calls), Play(env, Fresh(whitelist), calls).storage.headSlot)
  {
    if calls != [] {
      var n := |calls| - 1;
      var before := calls[..n];
      AcceptedInHeadOrder(env, whitelist, before);
    }
  }

  /** The last win of the slot after the head is the last win of that slot's proposer. */
  lemma NextSlotWonLast(log: seq<Win>, head: U64, slot: U64, pubkey: PublicKey)
    requires OneProposerPerSlot(log) && InHeadOrder(log, head)
    requires NextSlot(head) == slot && LastAt(log, slot).Some? && LastAt(log, slot).value.duty.pubkey == pubkey
    ensures LastFor(log, pubkey) == LastAt(log, slot) && LastAt(log, slot).value.Slot() == slot
  {
    LastAtIsInLog(log, slot);
    var w := LastAt(log, slot).value;
    var i :| 0 <= i < |log| && log[i] == w;
    var j := LastForIsLatest(log, pubkey, i);
    assert HeadOf(log[i].Slot()) <= HeadOf(log[j].Slot());
    LastForIsLastAt(log, pubkey);
  }

  /** The bid whose header GetHeader would sign now is the last one accepted for that proposer. */
  lemma HeaderIsOfLastAccepted(env: Env, whitelist: seq<PublicKey>, calls: seq<Call>, rota: U64 -> PublicKey,
                               slot: U64, parentHash: B256, pubkey: PublicKey)
    requires RefreshesFollow(rota, calls)
    requires HeadNeverDecreases(env, Fresh(whitelist), calls)
    requires var r := Play(env, Fresh(whitelist), calls);
             GetHeader(env, r.storage, r.best, slot, parentHash, pubkey).Ok?
    ensures var r := Play(env, Fresh(whitelist), calls);
            var last := LastFor(Accepted(env, Fresh(whitelist), calls), pubkey);
            last.Some? && last.value.bid == r.best[slot] && last.value.Slot() == slot
  {
    var r, log := Play(env, Fresh(whitelist), calls), Accepted(env, Fresh(whitelist), calls);
    RunIsLogged(env, whitelist, calls);
    RunFollowsRota(env, whitelist, calls, rota);
    AcceptedInHeadOrder(env, whitelist, calls);
    FindDutyFindsFirst(r.storage.duties, slot);
    LastAtIsInLog(log, slot);
    NextSlotWonLast(log, r.storage.headSlot, slot, pubkey);
  }

  /** No bid accepted along the run is for this proposer. */
  predicate NoneAcceptedFor(env: Env, r: Relay, calls: seq<Call>, pubkey: PublicKey) {
    calls != [] ==>
      var n := |calls| - 1;
      var now := Play(env, r, calls[..n]);
      && NoneAcceptedFor(env, r, calls[..n], pubkey)
      && (AcceptsNow(env, now, calls[n]) ==> Screen(env, now.storage, calls[n].bid).value.pubkey != pubkey)
  }

  lemma {:induction false} StoredStays(env: Env, r: Relay, calls: seq<Call>, pubkey: PublicKey)
    requires NoneAcceptedFor(env, r, calls, pubkey) && pubkey in r.storage.blinded
    ensures var r' := Play(env, r, calls);
            pubkey in r'.storage.blinded && r'.storage.blinded[pubkey] == r.storage.blinded[pubkey]
  {
    if calls != [] { StoredStays(env, r, calls[..|calls| - 1], pubkey); }
  }

  /** What the commitment leaves behind: the response stored for the proposer is the committed bid's. */
  lemma CommittedIsStored(env: Env, whitelist: seq<PublicKey>, before: seq<Call>, after: seq<Call>,
                          rota: U64 -> PublicKey, slot: U64, parentHash: B256, pubkey: PublicKey)
    requires RefreshesFollow(rota, before)
    requires HeadNeverDecreases(env, Fresh(whitelist), before)
    requires var r := Play(env, Fresh(whitelist), before);
             GetHeader(env, r.storage, r.best, slot, parentHash, pubkey).Ok?
    requires NoneAcceptedFor(env, Play(env, Fresh(whitelist), before), after, pubkey)
    ensures var r, blinded := Play(env, Fresh(whitelist), before),
                              Play(env, Fresh(whitelist), before + after).storage.blinded;
            && pubkey in blinded
            && blinded[pubkey].payload == r.best[slot].payload && blinded[pubkey].blobs == Some(r.best[slot].blobs)
  {
    HeaderIsOfLastAccepted(env, whitelist, before, rota, slot, parentHash, pubkey);
    RunIsLogged(env, whitelist, before);
    PlayConcat(env, Fresh(whitelist), before, after);
    StoredStays(env, Play(env, Fresh(whitelist), before), after, pubkey);
  }

  /** Every bid accepted before is among those accepted in the end. */
  lemma {:induction false} AcceptedGrows(env: Env, r: Relay, a: seq<Call>, b: seq<Call>, w: Win)
    requires w in Accepted(env, r, a)
    ensures w in Accepted(env, r, a + b)
  {
    if b == [] {
      assert a + b == a;
    } else {
      assert (a + b)[..|a + b| - 1] == a + b[..|b| - 1];
      AcceptedGrows(env, r, a, b[..|b| - 1], w);
    }
  }

  /** A header handed out commits to an accepted bid of its slot, and to the slot's only proposer. */
  lemma CommitsToAccepted(env: Env, whitelist: seq<PublicKey>, before: seq<Call>, after: seq<Call>,
                          rota: U64 -> PublicKey, slot: U64, parentHash: B256, pubkey: PublicKey)
    requires RefreshesFollow(rota, before + after)
    requires var r := Play(env, Fresh(whitelist), before);
             GetHeader(env, r.storage, r.best, slot, parentHash, pubkey).Ok?
    ensures var duty := FindDuty(Play(env, Fresh(whitelist), before + after).storage.duties, slot);
            duty.Some? ==> duty.value.pubkey == pubkey
    ensures var bid := Play(env, Fresh(whitelist), before).best[slot];
            exists w :: w in Accepted(env, Fresh(whitelist), before + after) && w.bid == bid
  {
    var r, log := Play(env, Fresh(whitelist), before), Accepted(env, Fresh(whitelist), before);
    forall i | 0 <= i < |before| ensures before[i] == (before + after)[i] { }
    RunFollowsRota(env, whitelist, before, rota);
    RunFollowsRota(env, whitelist, before + after, rota);
    FindDutyFindsFirst(r.storage.duties, slot);
    FindDutyFindsFirst(Play(env, Fresh(whitelist), before + after).storage.duties, slot);
    RunIsLogged(env, whitelist, before);
    LastAtIsInLog(log, slot);
    AcceptedGrows(env, Fresh(whitelist), before, after, LastAt(log, slot).value);
  }

  /** When a header handed out is redeemed, after any further calls: the reveal succeeds with a payload that
      builds the header exactly when the slot still has a duty of that index, the proposer signed, and the
      payload of the last bid accepted for the proposer builds the header. */
  lemma RedeemedExactly(env: Env, whitelist: seq<PublicKey>, before: seq<Call>, after: seq<Call>,
                        rota: U64 -> PublicKey, slot: U64, parentHash: B256, pubkey: PublicKey,
                        index: U64, signature: Signature)
    requires RefreshesFollow(rota, before + after)
    requires var r := Play(env, Fresh(whitelist), before);
             GetHeader(env, r.storage, r.best, slot, parentHash, pubkey).Ok?
    ensures var r, st := Play(env, Fresh(whitelist), before), Play(env, Fresh(whitelist), before + after).storage;
            var header := GetHeader(env, r.storage, r.best, slot, parentHash, pubkey).value.message;
            var duty := FindDuty(st.duties, slot);
            var last := LastFor(Accepted(env, Fresh(whitelist), before + after), pubkey);
            var out := Unblind(env, st, slot, index, header.blockHash, signature);
            (out.Ok? && BuildHeader(env, out.value.payload) == header) <==>
              && duty.Some? && duty.value.validatorIndex == index
              && env.revealSigned(pubkey, slot, index, header.blockHash, signature)
              && last.Some? && BuildHeader(env, last.value.bid.payload) == header
  {
    var r := Play(env, Fresh(whitelist), before);
    var header := GetHeader(env, r.storage, r.best, slot, parentHash, pubkey).value.message;
    CommitsToAccepted(env, whitelist, before, after, rota, slot, parentHash, pubkey);
    RevealSucceedsExactly(env, whitelist, before + after, slot, index, header.blockHash, signature);
  }

  /** When accepted bids of one block hash carry one payload, success alone redeems the header. */
  lemma SuccessRedeems(env: Env, whitelist: seq<PublicKey>, before: seq<Call>, after: seq<Call>,
                       rota: U64 -> PublicKey, slot: U64, parentHash: B256, pubkey: PublicKey,
                       index: U64, signature: Signature)
    requires RefreshesFollow(rota, before + after)
    requires var r := Play(env, Fresh(whitelist), before);
             GetHeader(env, r.storage, r.best, slot, parentHash, pubkey).Ok?
    requires OnePayloadPerHash(Accepted(env, Fresh(whitelist), before + after))
    ensures var r, st := Play(env, Fresh(whitelist), before), Play(env, Fresh(whitelist), before + after).storage;
            var header := GetHeader(env, r.storage, r.best, slot, parentHash, pubkey).value.message;
            var out := Unblind(env, st, slot, index, header.blockHash, signature);
            out.Ok? ==> out.value.payload == r.best[slot].payload && BuildHeader(env, out.value.payload) == header
  {
    var r := Play(env, Fresh(whitelist), before);
    var log := Accepted(env, Fresh(whitelist), before + after);
    CommitsToAccepted(env, whitelist, before, after, rota, slot, parentHash, pubkey);
    RevealSucceedsExactly(env, whitelist, before + after, slot, index, r.best[slot].payload.blockHash, signature);
    LastForIsInLog(log, pubkey);
  }

  /** Commit, then reveal.  A header handed out for a slot is redeemed by any later call to unblind that
      names its block hash, the index of the slot's duty and carries a verifying signature, as long as
      the relay still knows the slot's duty and has accepted no further bid for that proposer.  The
      payload returned is the one the header was built from.  Nothing is assumed about evictions,
      about the head after the commitment, or about other proposers. */
  lemma CommitThenReveal(env: Env, whitelist: seq<PublicKey>, before: seq<Call>, after: seq<Call>,
                         rota: U64 -> PublicKey, slot: U64, parentHash: B256, pubkey: PublicKey, signature: Signature)
    requires RefreshesFollow(rota, before + after)
    requires HeadNeverDecreases(env, Fresh(whitelist), before)
    requires var r := Play(env, Fresh(whitelist), before);
             GetHeader(env, r.storage, r.best, slot, parentHash, pubkey).Ok?
    requires NoneAcceptedFor(env, Play(env, Fresh(whitelist), before), after, pubkey)
    requires FindDuty(Play(env, Fresh(whitelist), before + after).storage.duties, slot).Some?
    ensures var r, r' := Play(env, Fresh(whitelist), before), Play(env, Fresh(whitelist), before + after);
            var header := GetHeader(env, r.storage, r.best, slot, parentHash, pubkey).value.message;
            var index := FindDuty(r'.storage.duties, slot).value.validatorIndex;
            env.revealSigned(pubkey, slot, index, header.blockHash, signature) ==>
              var out := Unblind(env, r'.storage, slot, index, header.blockHash, signature);
              && out.Ok? && BuildHeader(env, out.value.payload) == header
              && out.value.payload == r.best[slot].payload && out.value.blobs == Some(r.best[slot].blobs)
  {
    var duties, duties' := Play(env, Fresh(whitelist), before).storage.duties,
                           Play(env, Fresh(whitelist), before + after).storage.duties;
    forall i | 0 <= i < |before| ensures before[i] == (before + after)[i] { }
    CommittedIsStored(env, whitelist, before, after, rota, slot, parentHash, pubkey);
    RunFollowsRota(env, whitelist, before, rota);
    RunFollowsRota(env, whitelist, before + after, rota);
    FindDutyFindsFirst(duties, slot);
    FindDutyFindsFirst(duties', slot);
    DutiesAreRegistered(env, whitelist, before + after);
  }
}
