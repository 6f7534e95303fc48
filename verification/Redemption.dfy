/** Handing out headers and redeeming them while calls overlap.  A header commits the relay to a bid the
    moment the best bid is read; what a reveal returns is decided by what was stored last for the slot's
    proposer, by whatever call. */
module Redemption {
  import opened Entities
  import opened Datastore
  import opened UseCases
  import opened InterleavedRelay
  import opened WinLog
  import opened Agreement
  import opened Registrations

  /** When a reveal succeeds, after any interleaved run: exactly when the slot has a duty with the given
      index, the signature verifies and the bid stored last for that proposer has the given block hash.
      It then returns that bid's payload and blobs. */
  lemma RevealSucceedsExactly(env: Env, whitelist: seq<PublicKey>, events: seq<Event>,
                              slot: U64, index: U64, blockHash: B256, signature: Signature)
    ensures var st := Run(env, Start(whitelist), events).storage;
            var duty := FindDuty(st.duties, slot);
            var out := Unblind(env, st, slot, index, blockHash, signature);
            (out.Ok? <==>
              && duty.Some? && duty.value.validatorIndex == index
              && env.revealSigned(duty.value.pubkey, slot, index, blockHash, signature)
              && var kept := LastFor(Stored(env, Start(whitelist), events), duty.value.pubkey);
                 kept.Some? && kept.value.bid.payload.blockHash == blockHash)
            && (out.Ok? ==>
                 var bid := LastFor(Stored(env, Start(whitelist), events), duty.value.pubkey).value.bid;
                 out.value.payload == bid.payload && out.value.blobs == Some(bid.blobs))
  {
    IndexesFollowTheLogs(env, whitelist, events);
    DutiesStayRegistered(env, whitelist, events);
    FindDutyFindsFirst(Run(env, Start(whitelist), events).storage.duties, slot);
  }

  lemma ResponseRead(env: Env, s: System, t: nat)
    requires t < |s.tasks| && s.tasks[t].Unblinding? && s.tasks[t].unblindPc.AtResponse?
    ensures var task, pubkey := s.tasks[t], s.tasks[t].unblindPc.duty.pubkey;
            Step(env, s, Advance(t)).tasks[t].unblindPc
            == if pubkey !in s.storage.blinded then Unblinded(Err(NoBlindedBlockResponse))
               else if s.storage.blinded[pubkey].payload.blockHash != task.blockHash
                   then Unblinded(Err(BlockHashMismatch))
               else AtDeliver(s.storage.blinded[pubkey])
  {
  }

  /** The same for a reveal in flight.  Whatever happens between its steps, it is the store made last
      before its own reading of the response that decides. */
  lemma RevealInFlight(env: Env, whitelist: seq<PublicKey>, events: seq<Event>, t: nat)
    requires var s := Run(env, Start(whitelist), events);
             t < |s.tasks| && s.tasks[t].Unblinding? && s.tasks[t].unblindPc.AtResponse?
    ensures var s := Run(env, Start(whitelist), events);
            var task, pc' := s.tasks[t], Step(env, s, Advance(t)).tasks[t].unblindPc;
            var kept := LastFor(Stored(env, Start(whitelist), events), task.unblindPc.duty.pubkey);
            pc' == if kept.None? then Unblinded(Err(NoBlindedBlockResponse))
                   else if kept.value.bid.payload.blockHash != task.blockHash then Unblinded(Err(BlockHashMismatch))
                   else AtDeliver(BlindedBlockResponse(kept.value.bid.payload, Some(kept.value.bid.blobs)))
  {
    ResponseRead(env, Run(env, Start(whitelist), events), t);
    IndexesFollowTheLogs(env, whitelist, events);
  }

  /** The retrieval has read the bid whose header it signs. */
  predicate HandedOut(task: Task, bid: BidSubmission) {
    task.Retrieving? && match task.retrievePc
      case AtSecondBest(first) => first == bid
      case Retrieved(first, _) => first == bid
      case _ => false
  }

  ghost predicate WonIts(won: seq<Win>, bid: BidSubmission, slot: U64) {
    exists w :: w in won && w.bid == bid && w.Slot() == slot
  }

  /** A retrieval past its duty check is made by the slot's proposer, and what it hands out won the slot. */
  ghost predicate RetrieveAgrees(rota: U64 -> PublicKey, won: seq<Win>, task: Task) {
    task.Retrieving? ==>
      match task.retrievePc
      case AtRegistration => true
      case AtHeaderDuty => true
      case AtHeaderHead => task.pubkey == rota(task.slot)
      case AtBest => task.pubkey == rota(task.slot)
      case AtSecondBest(first) => task.pubkey == rota(task.slot) && WonIts(won, first, task.slot)
      case Retrieved(first, _) => task.pubkey == rota(task.slot) && WonIts(won, first, task.slot)
      case RetrieveFailed(_) => true
  }

  lemma RetrieveStep(rota: U64 -> PublicKey, st: StorageState, best: BestBids, won: seq<Win>, task: Task)
    requires task.Retrieving? && RetrieveAgrees(rota, won, task) && FollowsRota(rota, st.duties)
    requires forall slot :: slot in best ==> LastAt(won, slot).Some? && LastAt(won, slot).value.bid == best[slot]
    ensures RetrieveAgrees(rota, won, task.(retrievePc :=
              AdvanceRetrieve(st, best, task.slot, task.parentHash, task.pubkey, task.retrievePc)))
  {
    FindDutyFindsFirst(st.duties, task.slot);
    LastAtIsInLog(won, task.slot);
  }

  lemma RetrieveRemembered(rota: U64 -> PublicKey, won: seq<Win>, more: seq<Win>, task: Task)
    requires RetrieveAgrees(rota, won, task)
    ensures RetrieveAgrees(rota, won + more, task)
  {
  }

  /** An event moves no retrieval but its own, and new ones are at their start. */
  lemma OnlyOwnRetrieval(env: Env, s: System, e: Event, t: nat)
    requires t < |Step(env, s, e).tasks| && Step(env, s, e).tasks[t].Retrieving?
    ensures var task' := Step(env, s, e).tasks[t];
            if t >= |s.tasks| then task'.retrievePc.AtRegistration?
            else if e == Advance(t) then
              s.tasks[t].Retrieving? && task' == s.tasks[t].(retrievePc :=
                AdvanceRetrieve(s.storage, s.best, s.tasks[t].slot, s.tasks[t].parentHash, s.tasks[t].pubkey,
                                s.tasks[t].retrievePc))
            else task' == s.tasks[t]
  {
  }

  lemma {:induction false} CommitmentsAgree(env: Env, whitelist: seq<PublicKey>, events: seq<Event>,
                                            rota: U64 -> PublicKey, t: nat)
    requires RepliesAgree(rota, events) && t < |Run(env, Start(whitelist), events).tasks|
    ensures RetrieveAgrees(rota, Won(env, Start(whitelist), events), Run(env, Start(whitelist), events).tasks[t])
  {
    if events != [] && Run(env, Start(whitelist), events).tasks[t].Retrieving? {
      var before, e := events[..|events| - 1], events[|events| - 1];
      var s, won := Run(env, Start(whitelist), before), Won(env, Start(whitelist), before);
      assert RepliesAgree(rota, before);
      OnlyOwnRetrieval(env, s, e, t);
      if t < |s.tasks| {
        CommitmentsAgree(env, whitelist, before, rota, t);
        if e == Advance(t) {
          IndexesFollowTheLogs(env, whitelist, before);
          WinnersAreAssigned(env, whitelist, before, rota);
          RetrieveStep(rota, s.storage, s.best, won, s.tasks[t]);
        }
        RetrieveRemembered(rota, won, WonBy(s, e), Run(env, Start(whitelist), events).tasks[t]);
      }
    }
  }

  lemma {:induction false} StoredConcat(env: Env, s: System, a: seq<Event>, b: seq<Event>)
    ensures Stored(env, s, a + b) == Stored(env, s, a) + Stored(env, Run(env, s, a), b)
  {
    if b == [] {
      assert a + b == a;
    } else {
      var n := |b| - 1;
      assert (a + b)[..|a + b| - 1] == a + b[..n];
      StoredConcat(env, s, a, b[..n]);
      RunConcat(env, s, a, b[..n]);
    }
  }

  lemma {:induction false} LastForConcat(a: seq<Win>, b: seq<Win>, pubkey: PublicKey)
    ensures LastFor(a + b, pubkey) == if LastFor(b, pubkey).Some? then LastFor(b, pubkey) else LastFor(a, pubkey)
  {
    if b == [] {
      assert a + b == a;
    } else {
      assert (a + b)[..|a + b| - 1] == a + b[..|b| - 1];
      LastForConcat(a, b[..|b| - 1], pubkey);
    }
  }

  /** The bid stored last for a proposer, told from a moment on: the last store since, or else the one before. */
  function KeptSince(env: Env, whitelist: seq<PublicKey>, before: seq<Event>, after: seq<Event>,
                     pubkey: PublicKey): Option<Win>
  {
    var since := LastFor(Stored(env, Run(env, Start(whitelist), before), after), pubkey);
    if since.Some? then since else LastFor(Stored(env, Start(whitelist), before), pubkey)
  }

  /** Commit, then reveal, while calls overlap.  A retrieval was handed the header of a bid.  After any
      further events a reveal that names its block hash succeeds exactly when the slot still has a duty of
      the given index, the slot's proposer signed, and what was stored last for that proposer has that block
      hash; it succeeds with a payload that builds the header exactly when what was stored last builds it, and
      with the committed payload and blobs exactly when those were stored last. */
  lemma CommitThenReveal(env: Env, whitelist: seq<PublicKey>, before: seq<Event>, after: seq<Event>,
                         rota: U64 -> PublicKey, t: nat, bid: BidSubmission, index: U64, signature: Signature)
    requires RepliesAgree(rota, before + after)
    requires t < |Run(env, Start(whitelist), before).tasks|
    requires HandedOut(Run(env, Start(whitelist), before).tasks[t], bid)
    ensures var task, st := Run(env, Start(whitelist), before).tasks[t],
                            Run(env, Start(whitelist), before + after).storage;
            var duty, hash := FindDuty(st.duties, task.slot), bid.payload.blockHash;
            var kept := KeptSince(env, whitelist, before, after, task.pubkey);
            var out := Unblind(env, st, task.slot, index, hash, signature);
            && bid.message.slot == task.slot
            && (out.Ok? <==>
                 && duty.Some? && duty.value.validatorIndex == index
                 && env.revealSigned(task.pubkey, task.slot, index, hash, signature)
                 && kept.Some? && kept.value.bid.payload.blockHash == hash)
            && (out.Ok? && BuildHeader(env, out.value.payload) == SignBid(env, bid).message <==>
                 && duty.Some? && duty.value.validatorIndex == index
                 && env.revealSigned(task.pubkey, task.slot, index, hash, signature)
                 && kept.Some? && BuildHeader(env, kept.value.bid.payload) == SignBid(env, bid).message)
            && (out.Ok? ==>
                 out.value.payload == kept.value.bid.payload && out.value.blobs == Some(kept.value.bid.blobs))
            && (out.Ok? && out.value.payload == bid.payload && out.value.blobs == Some(bid.blobs) <==>
                 && duty.Some? && duty.value.validatorIndex == index
                 && env.revealSigned(task.pubkey, task.slot, index, hash, signature)
                 && kept.Some? && kept.value.bid.payload == bid.payload && kept.value.bid.blobs == bid.blobs)
  {
    var s0 := Start(whitelist);
    var task, st := Run(env, s0, before).tasks[t], Run(env, s0, before + after).storage;
    CommitsToProposer(env, whitelist, before, after, rota, t, bid);
    StoredConcat(env, s0, before, after);
    LastForConcat(Stored(env, s0, before), Stored(env, Run(env, s0, before), after), task.pubkey);
    RevealSucceedsExactly(env, whitelist, before + after, task.slot, index, bid.payload.blockHash, signature);
  }

  lemma CommitsToProposer(env: Env, whitelist: seq<PublicKey>, before: seq<Event>, after: seq<Event>,
                          rota: U64 -> PublicKey, t: nat, bid: BidSubmission)
    requires RepliesAgree(rota, before + after)
    requires t < |Run(env, Start(whitelist), before).tasks|
    requires HandedOut(Run(env, Start(whitelist), before).tasks[t], bid)
    ensures var task := Run(env, Start(whitelist), before).tasks[t];
            var duty := FindDuty(Run(env, Start(whitelist), before + after).storage.duties, task.slot);
            bid.message.slot == task.slot && (duty.Some? ==> duty.value.pubkey == task.pubkey)
  {
    forall i | 0 <= i < |before| ensures before[i] == (before + after)[i] { }
    assert RepliesAgree(rota, before);
    CommitmentsAgree(env, whitelist, before, rota, t);
    WinnersAreAssigned(env, whitelist, before + after, rota);
    var task := Run(env, Start(whitelist), before).tasks[t];
    FindDutyFindsFirst(Run(env, Start(whitelist), before + after).storage.duties, task.slot);
  }

  lemma {:induction false} WonGrows(env: Env, s: System, a: seq<Event>, b: seq<Event>, w: Win)
    requires w in Won(env, s, a)
    ensures w in Won(env, s, a + b)
  {
    if b == [] {
      assert a + b == a;
    } else {
      assert (a + b)[..|a + b| - 1] == a + b[..|b| - 1];
      WonGrows(env, s, a, b[..|b| - 1], w);
    }
  }

  /** When accepted bids of one block hash carry one payload, success alone redeems the header. */
  lemma SuccessRedeems(env: Env, whitelist: seq<PublicKey>, before: seq<Event>, after: seq<Event>,
                       rota: U64 -> PublicKey, t: nat, bid: BidSubmission, index: U64, signature: Signature)
    requires RepliesAgree(rota, before + after)
    requires t < |Run(env, Start(whitelist), before).tasks|
    requires HandedOut(Run(env, Start(whitelist), before).tasks[t], bid)
    requires OnePayloadPerHash(Won(env, Start(whitelist), before + after))
    ensures var task, st := Run(env, Start(whitelist), before).tasks[t],
                            Run(env, Start(whitelist), before + after).storage;
            var out := Unblind(env, st, task.slot, index, bid.payload.blockHash, signature);
            out.Ok? ==>
              out.value.payload == bid.payload && BuildHeader(env, out.value.payload) == SignBid(env, bid).message
  {
    var s0, all := Start(whitelist), before + after;
    var task, st := Run(env, s0, before).tasks[t], Run(env, s0, all).storage;
    RevealSucceedsExactly(env, whitelist, all, task.slot, index, bid.payload.blockHash, signature);
    if Unblind(env, st, task.slot, index, bid.payload.blockHash, signature).Ok? {
      forall i | 0 <= i < |before| ensures before[i] == all[i] { }
      assert RepliesAgree(rota, before);
      CommitmentsAgree(env, whitelist, before, rota, t);
      var w :| w in Won(env, s0, before) && w.bid == bid;
      WonGrows(env, s0, before, after, w);
      IndexesFollowTheLogs(env, whitelist, all);
      LastForIsInLog(Stored(env, s0, all), FindDuty(st.duties, task.slot).value.pubkey);
    }
  }

  /** No accepted bid of the proposer waits to be stored. */
  ghost predicate NothingPendingFor(s: System, pubkey: PublicKey) {
    forall t: nat :: t < |s.tasks| ==> !PendingFor(s.tasks[t], pubkey)
  }

  predicate PendingFor(task: Task, pubkey: PublicKey) {
    task.Bidding? && task.bidPc.AtStore? && task.bidPc.duty.pubkey == pubkey
  }

  lemma QuietStep(env: Env, s: System, e: Event, pubkey: PublicKey)
    requires NothingPendingFor(s, pubkey) && forall w :: w in WonBy(s, e) ==> w.duty.pubkey != pubkey
    ensures NothingPendingFor(Step(env, s, e), pubkey)
    ensures forall w :: w in StoredBy(s, e) ==> w.duty.pubkey != pubkey
  {
    if e.Advance? && e.task < |s.tasks| {
      OthersStand(env, s, e.task);
      assert !PendingFor(s.tasks[e.task], pubkey);
      if WonBy(s, e) != [] { assert WonBy(s, e)[0] in WonBy(s, e); }
      assert !PendingFor(Step(env, s, e).tasks[e.task], pubkey);
    } else {
      LeavesStoresAlone(env, s, e);
    }
  }

  /** With nothing pending for a proposer and no bid accepted for it, nothing is stored for it. */
  lemma {:induction false} QuietStaysQuiet(env: Env, s: System, events: seq<Event>, pubkey: PublicKey)
    requires NothingPendingFor(s, pubkey) && LastFor(Won(env, s, events), pubkey).None?
    ensures NothingPendingFor(Run(env, s, events), pubkey) && LastFor(Stored(env, s, events), pubkey).None?
  {
    if events != [] {
      var before, e := events[..|events| - 1], events[|events| - 1];
      var m := Run(env, s, before);
      LastForConcat(Won(env, s, before), WonBy(m, e), pubkey);
      LastForConcat(Stored(env, s, before), StoredBy(m, e), pubkey);
      LastForIsInLog(WonBy(m, e), pubkey);
      LastForIsInLog(StoredBy(m, e), pubkey);
      QuietStaysQuiet(env, s, before, pubkey);
      QuietStep(env, m, e, pubkey);
    }
  }

  /** When overlapping calls cannot hurt a commitment: the committed bid is the one stored last, nothing is
      pending for its proposer, and no further bid is accepted for it.  Then the header is redeemed. */
  lemma QuietCommitmentHolds(env: Env, whitelist: seq<PublicKey>, before: seq<Event>, after: seq<Event>,
                             rota: U64 -> PublicKey, t: nat, bid: BidSubmission, signature: Signature)
    requires RepliesAgree(rota, before + after)
    requires t < |Run(env, Start(whitelist), before).tasks|
    requires HandedOut(Run(env, Start(whitelist), before).tasks[t], bid)
    requires var s := Run(env, Start(whitelist), before);
             && NothingPendingFor(s, s.tasks[t].pubkey)
             && LastFor(Won(env, s, after), s.tasks[t].pubkey).None?
             && var kept := LastFor(Stored(env, Start(whitelist), before), s.tasks[t].pubkey);
                kept.Some? && kept.value.bid == bid
    ensures var task, st := Run(env, Start(whitelist), before).tasks[t],
                            Run(env, Start(whitelist), before + after).storage;
            var duty := FindDuty(st.duties, task.slot);
            duty.Some? && env.revealSigned(task.pubkey, task.slot, duty.value.validatorIndex, bid.payload.blockHash,
                                           signature)
            ==> Unblind(env, st, task.slot, duty.value.validatorIndex, bid.payload.blockHash, signature)
                == Ok(BlindedBlockResponse(bid.payload, Some(bid.blobs)))
  {
    var s, st := Run(env, Start(whitelist), before), Run(env, Start(whitelist), before + after).storage;
    QuietStaysQuiet(env, s, after, s.tasks[t].pubkey);
    var duty := FindDuty(st.duties, s.tasks[t].slot);
    if duty.Some? {
      CommitThenReveal(env, whitelist, before, after, rota, t, bid, duty.value.validatorIndex, signature);
    }
  }
}
