/** The two indexes under interleaving.  A bid enters the cache by slot when it wins and the response
    map by proposer one step later; this module follows both through the log of wins and the log of
    stores of a run. */
module Agreement {
  import opened Entities
  import opened Datastore
  import opened InterleavedRelay
  import opened WinLog

  predicate Standing(s: System, t: nat) {
    t < |s.tasks| && s.tasks[t].Bidding?
  }

  /** The bid this event accepts, if any. */
  function WonBy(s: System, e: Event): seq<Win> {
    if e.Advance? && Standing(s, e.task) && s.tasks[e.task].bidPc.AtCompare?
       && Beats(s.best, s.tasks[e.task].bid.message.slot, s.tasks[e.task].bid)
    then [Win(e.task, s.tasks[e.task].bid, s.tasks[e.task].bidPc.duty)] else []
  }

  /** The accepted bid whose response this event stores, if any. */
  function StoredBy(s: System, e: Event): seq<Win> {
    if e.Advance? && Standing(s, e.task) && s.tasks[e.task].bidPc.AtStore?
    then [Win(e.task, s.tasks[e.task].bid, s.tasks[e.task].bidPc.duty)] else []
  }

  function Won(env: Env, s: System, events: seq<Event>): seq<Win> {
    if events == [] then []
    else
      var before := events[..|events| - 1];
      Won(env, s, before) + WonBy(Run(env, s, before), events[|events| - 1])
  }

  function Stored(env: Env, s: System, events: seq<Event>): seq<Win> {
    if events == [] then []
    else
      var before := events[..|events| - 1];
      Stored(env, s, before) + StoredBy(Run(env, s, before), events[|events| - 1])
  }

  /** No accepted bid still has its response to store. */
  ghost predicate NothingPending(s: System) {
    forall t: nat :: t < |s.tasks| ==> !(s.tasks[t].Bidding? && s.tasks[t].bidPc.AtStore?)
  }

  ghost predicate Indexed(s: System, won: seq<Win>, stored: seq<Win>) {
    && (forall slot :: slot in s.best ==> LastAt(won, slot).Some? && LastAt(won, slot).value.bid == s.best[slot])
    && (forall pk :: pk in s.storage.blinded <==> LastFor(stored, pk).Some?)
    && (forall pk :: pk in s.storage.blinded ==> s.storage.blinded[pk].Carries(LastFor(stored, pk).value.bid))
  }

  /** An accepted bid is held by the call that will store it, or has been stored by it. */
  ghost predicate Held(s: System, w: Win) {
    w.call < |s.tasks| && s.tasks[w.call] == Bidding(w.bid, AtStore(w.duty))
  }

  ghost predicate Settled(s: System, w: Win) {
    w.call < |s.tasks| && s.tasks[w.call] == Bidding(w.bid, BidDone(Ok(())))
  }

  ghost predicate Conserved(s: System, won: seq<Win>, stored: seq<Win>) {
    && DistinctCalls(won) && DistinctCalls(stored)
    && (forall w :: w in won ==> Held(s, w) || (Settled(s, w) && w in stored))
    && (forall w :: w in stored ==> w in won && Settled(s, w))
    && (forall t: nat :: t < |s.tasks| && s.tasks[t].Bidding? && s.tasks[t].bidPc.AtStore?
                         ==> Win(t, s.tasks[t].bid, s.tasks[t].bidPc.duty) in won)
  }

  lemma IndexedStep(env: Env, s: System, e: Event, won: seq<Win>, stored: seq<Win>)
    requires Indexed(s, won, stored)
    ensures Indexed(Step(env, s, e), won + WonBy(s, e), stored + StoredBy(s, e))
  {
    if WonBy(s, e) != [] { Grow(won, WonBy(s, e)[0]); } else { assert won + WonBy(s, e) == won; }
    if StoredBy(s, e) != [] { Grow(stored, StoredBy(s, e)[0]); } else { assert stored + StoredBy(s, e) == stored; }
    if e.Advance? && e.task < |s.tasks| {
      TouchesOnlyItsOwn(env, s, e.task);
    } else {
      LeavesStoresAlone(env, s, e);
    }
  }

  lemma TouchesOnlyItsOwn(env: Env, s: System, t: nat)
    requires t < |s.tasks|
    ensures var s' := AdvanceTask(env, s, t);
            && s'.best == (if WonBy(s, Advance(t)) == [] then s.best
                           else s.best[WonBy(s, Advance(t))[0].Slot() := WonBy(s, Advance(t))[0].bid])
            && s'.storage.blinded == (if StoredBy(s, Advance(t)) == [] then s.storage.blinded
                 else var w := StoredBy(s, Advance(t))[0]; s.storage.blinded[w.duty.pubkey := w.bid.ToResponse()])
  {
  }

  lemma LeavesStoresAlone(env: Env, s: System, e: Event)
    requires !e.Advance? || e.task >= |s.tasks|
    ensures var s' := Step(env, s, e);
            && s'.storage.blinded == s.storage.blinded
            && s'.best == (if e.Evict? then s.best - {e.evicted} else s.best)
            && |s.tasks| <= |s'.tasks|
            && (forall t: nat :: t < |s.tasks| ==>
                 s'.tasks[t] == s.tasks[t] || (s.tasks[t].Syncing? && s'.tasks[t].Syncing?))
            && (forall t: nat :: |s.tasks| <= t < |s'.tasks| ==>
                 s'.tasks[t].Bidding? ==> s'.tasks[t].bidPc.AtWhitelist?)
  {
  }

  lemma ConservedWhenWinning(env: Env, s: System, t: nat, won: seq<Win>, stored: seq<Win>, w: Win)
    requires Conserved(s, won, stored) && t < |s.tasks| && WonBy(s, Advance(t)) == [w]
    ensures Conserved(AdvanceTask(env, s, t), won + [w], stored)
  {
    var s' := AdvanceTask(env, s, t);
    assert s'.tasks == s.tasks[t := Bidding(w.bid, AtStore(w.duty))];
    forall v | v in won ensures v.call != t { }
    forall v | v in won + [w] ensures Held(s', v) || (Settled(s', v) && v in stored) {
      if v in won { assert v.call != t; }
    }
  }

  lemma ConservedWhenStoring(env: Env, s: System, t: nat, won: seq<Win>, stored: seq<Win>, w: Win)
    requires Conserved(s, won, stored) && t < |s.tasks| && StoredBy(s, Advance(t)) == [w]
    ensures Conserved(AdvanceTask(env, s, t), won, stored + [w])
  {
    var s' := AdvanceTask(env, s, t);
    assert s'.tasks == s.tasks[t := Bidding(w.bid, BidDone(Ok(())))];
    forall v | v in stored ensures v.call != t { }
    assert w in won;
    forall v | v in won ensures Held(s', v) || (Settled(s', v) && v in stored + [w]) {
      var i, j :| 0 <= i < |won| && 0 <= j < |won| && won[i] == v && won[j] == w;
    }
  }

  lemma ConservedOtherwise(env: Env, s: System, t: nat, won: seq<Win>, stored: seq<Win>)
    requires Conserved(s, won, stored) && t < |s.tasks| && WonBy(s, Advance(t)) == [] && StoredBy(s, Advance(t)) == []
    ensures Conserved(AdvanceTask(env, s, t), won, stored)
  {
  }

  lemma ConservedStep(env: Env, s: System, e: Event, won: seq<Win>, stored: seq<Win>)
    requires Conserved(s, won, stored)
    ensures Conserved(Step(env, s, e), won + WonBy(s, e), stored + StoredBy(s, e))
  {
    if WonBy(s, e) != [] {
      assert stored + StoredBy(s, e) == stored;
      ConservedWhenWinning(env, s, e.task, won, stored, WonBy(s, e)[0]);
    } else if StoredBy(s, e) != [] {
      assert won + WonBy(s, e) == won;
      ConservedWhenStoring(env, s, e.task, won, stored, StoredBy(s, e)[0]);
    } else {
      assert won + WonBy(s, e) == won && stored + StoredBy(s, e) == stored;
      if e.Advance? && e.task < |s.tasks| {
        ConservedOtherwise(env, s, e.task, won, stored);
      } else {
        LeavesStoresAlone(env, s, e);
        var s' := Step(env, s, e);
        forall w | w in won ensures Held(s', w) || (Settled(s', w) && w in stored) { }
      }
    }
  }

  /** In every run, evictions included: a cached bid is the last one its slot accepted, a stored
      response is the last one stored for its proposer, and every accepted bid is either stored, once,
      or held by exactly the call that will store it. */
  lemma {:induction false} IndexesFollowTheLogs(env: Env, whitelist: seq<PublicKey>, events: seq<Event>)
    ensures var s0 := Start(whitelist);
            && Indexed(Run(env, s0, events), Won(env, s0, events), Stored(env, s0, events))
            && Conserved(Run(env, s0, events), Won(env, s0, events), Stored(env, s0, events))
  {
    var s0 := Start(whitelist);
    if events != [] {
      var before := events[..|events| - 1];
      IndexesFollowTheLogs(env, whitelist, before);
      IndexedStep(env, Run(env, s0, before), events[|events| - 1], Won(env, s0, before), Stored(env, s0, before));
      ConservedStep(env, Run(env, s0, before), events[|events| - 1], Won(env, s0, before), Stored(env, s0, before));
    }
  }

  ghost predicate NoEviction(events: seq<Event>) {
    forall i :: 0 <= i < |events| ==> !events[i].Evict?
  }

  ghost predicate Peaked(s: System, won: seq<Win>) {
    && Climbing(won)
    && forall slot :: LastAt(won, slot).Some? ==> slot in s.best && s.best[slot] == LastAt(won, slot).value.bid
  }

  lemma PeakedStep(env: Env, s: System, e: Event, won: seq<Win>)
    requires Peaked(s, won) && !e.Evict?
    requires forall slot :: slot in s.best ==> LastAt(won, slot).Some?
    ensures Peaked(Step(env, s, e), won + WonBy(s, e))
  {
    if WonBy(s, e) == [] {
      assert won + WonBy(s, e) == won;
      if e.Advance? && e.task < |s.tasks| { TouchesOnlyItsOwn(env, s, e.task); } else { LeavesStoresAlone(env, s, e); }
    } else {
      var w := WonBy(s, e)[0];
      TouchesOnlyItsOwn(env, s, e.task);
      Grow(won, w);
      forall i | 0 <= i < |won| && won[i].Slot() == w.Slot() ensures won[i].Value() < w.Value() {
        LastAtIsGreatest(won, won[i]);
      }
    }
  }

  /** Without eviction every slot that ever accepted a bid is cached, and its accepted values climb. */
  lemma {:induction false} AcceptedValuesClimb(env: Env, whitelist: seq<PublicKey>, events: seq<Event>)
    requires NoEviction(events)
    ensures Peaked(Run(env, Start(whitelist), events), Won(env, Start(whitelist), events))
  {
    if events != [] {
      var before, e := events[..|events| - 1], events[|events| - 1];
      AcceptedValuesClimb(env, whitelist, before);
      IndexesFollowTheLogs(env, whitelist, before);
      PeakedStep(env, Run(env, Start(whitelist), before), e, Won(env, Start(whitelist), before));
    }
  }

  /** With any number of submissions in flight and no eviction, a stored response always belongs to an
      accepted bid that is worth at most the current best of its slot. */
  lemma StoredIsBoundedByBest(env: Env, whitelist: seq<PublicKey>, events: seq<Event>, pubkey: PublicKey)
    requires NoEviction(events)
    requires pubkey in Run(env, Start(whitelist), events).storage.blinded
    ensures var s := Run(env, Start(whitelist), events);
            exists w :: && w in Won(env, Start(whitelist), events)
                        && w.duty.pubkey == pubkey
                        && s.storage.blinded[pubkey].payload == w.bid.payload
                        && s.storage.blinded[pubkey].blobs == Some(w.bid.blobs)
                        && w.Slot() in s.best && w.Value() <= s.best[w.Slot()].message.value
  {
    IndexesFollowTheLogs(env, whitelist, events);
    AcceptedValuesClimb(env, whitelist, events);
    var won, stored := Won(env, Start(whitelist), events), Stored(env, Start(whitelist), events);
    LastForIsInLog(stored, pubkey);
    var w := LastFor(stored, pubkey).value;
    assert w in won;
    LastAtIsGreatest(won, w);
  }

  /** The beacon node never names two proposers for one slot. */
  ghost predicate RepliesAgree(rota: U64 -> PublicKey, events: seq<Event>) {
    forall i :: 0 <= i < |events| && events[i].DutiesReply? && events[i].reply.Some?
        ==> FollowsRota(rota, events[i].reply.value)
  }

  ghost predicate TaskAgrees(rota: U64 -> PublicKey, task: Task) {
    match task
    case Bidding(bid, pc) => pc.AtCompare? || pc.AtStore? ==> pc.duty.pubkey == rota(bid.message.slot)
    case Syncing(_, pc) => (
      match pc
      case Filtering(earlier, _, todo, kept) =>
        FollowsRota(rota, todo) && FollowsRota(rota, kept) && (earlier.Some? ==> FollowsRota(rota, earlier.value))
      case AwaitNext(current) => FollowsRota(rota, current)
      case AtCommit(duties) => FollowsRota(rota, duties)
      case _ => true
    )
    case _ => true
  }

  ghost predicate SystemAgrees(rota: U64 -> PublicKey, s: System) {
    && FollowsRota(rota, s.storage.duties)
    && forall t: nat :: t < |s.tasks| ==> TaskAgrees(rota, s.tasks[t])
  }

  lemma BidAgrees(env: Env, rota: U64 -> PublicKey, st: StorageState, best: BestBids, bid: BidSubmission, pc: BidPc)
    requires FollowsRota(rota, st.duties) && TaskAgrees(rota, Bidding(bid, pc))
    ensures var (st', _, pc') := AdvanceBid(env, st, best, bid, pc);
            st'.duties == st.duties && TaskAgrees(rota, Bidding(bid, pc'))
  {
    FindDutyFindsFirst(st.duties, bid.message.slot);
  }

  lemma SyncAgrees(rota: U64 -> PublicKey, st: StorageState, epoch: U64, pc: SyncPc)
    requires FollowsRota(rota, st.duties) && TaskAgrees(rota, Syncing(epoch, pc))
    ensures var (st', pc') := AdvanceSync(st, pc);
            FollowsRota(rota, st'.duties) && TaskAgrees(rota, Syncing(epoch, pc'))
  {
  }

  lemma TaskAgreesStep(env: Env, rota: U64 -> PublicKey, s: System, t: nat)
    requires SystemAgrees(rota, s) && t < |s.tasks|
    ensures SystemAgrees(rota, AdvanceTask(env, s, t))
  {
    assert TaskAgrees(rota, s.tasks[t]);
    match s.tasks[t]
    case Bidding(bid, pc) => BidAgrees(env, rota, s.storage, s.best, bid, pc);
    case Retrieving(_, _, _, _) =>
    case Unblinding(_, _, _, _, _) =>
    case Syncing(epoch, pc) => SyncAgrees(rota, s.storage, epoch, pc);
  }

  lemma SystemAgreesStep(env: Env, rota: U64 -> PublicKey, s: System, e: Event)
    requires SystemAgrees(rota, s)
    requires e.DutiesReply? && e.reply.Some? ==> FollowsRota(rota, e.reply.value)
    ensures SystemAgrees(rota, Step(env, s, e))
  {
    if e.Advance? && e.task < |s.tasks| { TaskAgreesStep(env, rota, s, e.task); }
  }

  lemma {:induction false} WinnersAreAssigned(env: Env, whitelist: seq<PublicKey>, events: seq<Event>,
                                              rota: U64 -> PublicKey)
    requires RepliesAgree(rota, events)
    ensures SystemAgrees(rota, Run(env, Start(whitelist), events))
    ensures forall w :: w in Won(env, Start(whitelist), events) ==> w.duty.pubkey == rota(w.Slot())
  {
    if events != [] {
      var before, e := events[..|events| - 1], events[|events| - 1];
      assert RepliesAgree(rota, before);
      WinnersAreAssigned(env, whitelist, before, rota);
      var s := Run(env, Start(whitelist), before);
      SystemAgreesStep(env, rota, s, e);
      if WonBy(s, e) != [] { assert TaskAgrees(rota, s.tasks[e.task]); }
    }
  }

  /** A submission past its guards carries a signature that verified. */
  predicate TaskSigned(env: Env, task: Task) {
    task.Bidding? && (task.bidPc.AtCompare? || task.bidPc.AtStore?) ==> env.bidSigned(task.bid)
  }

  lemma SignedStep(env: Env, s: System, e: Event, t: nat)
    requires forall u: nat :: u < |s.tasks| ==> TaskSigned(env, s.tasks[u])
    requires t < |Step(env, s, e).tasks|
    ensures TaskSigned(env, Step(env, s, e).tasks[t])
  {
    if t < |s.tasks| { assert TaskSigned(env, s.tasks[t]); }
    if e.Advance? && e.task < |s.tasks| { OthersStand(env, s, e.task); } else { LeavesStoresAlone(env, s, e); }
  }

  /** In every interleaving every accepted bid carried a signature that verified. */
  lemma {:induction false} WinnersAreSigned(env: Env, whitelist: seq<PublicKey>, events: seq<Event>)
    ensures forall t: nat :: t < |Run(env, Start(whitelist), events).tasks| ==>
              TaskSigned(env, Run(env, Start(whitelist), events).tasks[t])
    ensures forall w :: w in Won(env, Start(whitelist), events) ==> env.bidSigned(w.bid)
  {
    if events != [] {
      var before, e := events[..|events| - 1], events[|events| - 1];
      WinnersAreSigned(env, whitelist, before);
      var s := Run(env, Start(whitelist), before);
      if WonBy(s, e) != [] { assert TaskSigned(env, s.tasks[e.task]); }
      forall t: nat | t < |Step(env, s, e).tasks| ensures TaskSigned(env, Step(env, s, e).tasks[t]) {
        SignedStep(env, s, e, t);
      }
    }
  }

  lemma AgreementWhenSettled(s: System, won: seq<Win>, stored: seq<Win>, pubkey: PublicKey)
    requires Indexed(s, won, stored) && Conserved(s, won, stored) && NothingPending(s)
    requires Of(stored, pubkey) <= Of(won, pubkey)
    ensures LastFor(stored, pubkey) == LastFor(won, pubkey)
  {
    OfKeepsMembers(won, pubkey);
    OfKeepsMembers(stored, pubkey);
    OfKeepsDistinct(won, pubkey);
    LastForEndsOf(won, pubkey);
    LastForEndsOf(stored, pubkey);
    forall w | w in won ensures w in stored { }
    PrefixMissesAMember(Of(stored, pubkey), Of(won, pubkey));
  }

  lemma AgreeByLogs(blinded: map<PublicKey, BlindedBlockResponse>, best: BestBids, won: seq<Win>, pubkey: PublicKey,
                    kept: Option<Win>)
    requires pubkey in blinded <==> kept.Some?
    requires kept.Some? ==> blinded[pubkey].Carries(kept.value.bid) && LastFor(won, pubkey).Some?
    requires var accepted := LastFor(won, pubkey);
             accepted.Some? ==>
               && LastAt(won, accepted.value.Slot()) == accepted
               && (accepted.value.Slot() in best ==> best[accepted.value.Slot()] == accepted.value.bid)
    ensures var accepted := LastFor(won, pubkey);
            Agree(blinded, best, won, pubkey)
            <==> (accepted.None?
                  || (kept.Some? && kept.value.bid.payload == accepted.value.bid.payload
                      && kept.value.bid.blobs == accepted.value.bid.blobs))
  {
  }

  /** When agreement holds, in every interleaving, evictions and pending stores included: exactly when no bid
      was accepted for the proposer, or what was stored for it last has the payload and blobs of what was
      accepted for it last. */
  lemma AgreementExactly(env: Env, whitelist: seq<PublicKey>, events: seq<Event>, rota: U64 -> PublicKey,
                         pubkey: PublicKey)
    requires RepliesAgree(rota, events)
    ensures var s := Run(env, Start(whitelist), events);
            var accepted, kept := LastFor(Won(env, Start(whitelist), events), pubkey),
                                  LastFor(Stored(env, Start(whitelist), events), pubkey);
            Agree(s.storage.blinded, s.best, Won(env, Start(whitelist), events), pubkey)
            <==> (accepted.None?
                  || (kept.Some? && kept.value.bid.payload == accepted.value.bid.payload
                      && kept.value.bid.blobs == accepted.value.bid.blobs))
  {
    var won, stored := Won(env, Start(whitelist), events), Stored(env, Start(whitelist), events);
    IndexesFollowTheLogs(env, whitelist, events);
    WinnersAreAssigned(env, whitelist, events, rota);
    assert OneProposerPerSlot(won);
    LastForIsInLog(won, pubkey);
    LastForIsInLog(stored, pubkey);
    if LastFor(won, pubkey).Some? { LastForIsLastAt(won, pubkey); }
    if LastFor(stored, pubkey).Some? { assert LastFor(stored, pubkey).value in won; }
    var s := Run(env, Start(whitelist), events);
    AgreeByLogs(s.storage.blinded, s.best, won, pubkey, LastFor(stored, pubkey));
  }

  /** What a store does to agreement can be told before it is made: it leaves its proposer's indexes in
      agreement if and only if it stores the payload and blobs of the last bid accepted for the proposer. */
  lemma StoreDecides(env: Env, whitelist: seq<PublicKey>, events: seq<Event>, rota: U64 -> PublicKey, t: nat, w: Win)
    requires RepliesAgree(rota, events)
    requires StoredBy(Run(env, Start(whitelist), events), Advance(t)) == [w]
    ensures var s', won := Step(env, Run(env, Start(whitelist), events), Advance(t)),
                           Won(env, Start(whitelist), events);
            var accepted := LastFor(won, w.duty.pubkey);
            && accepted.Some?
            && (Agree(s'.storage.blinded, s'.best, won, w.duty.pubkey)
                <==> w.bid.payload == accepted.value.bid.payload && w.bid.blobs == accepted.value.bid.blobs)
  {
    var s0, longer := Start(whitelist), events + [Advance(t)];
    var s, won := Run(env, s0, events), Won(env, s0, events);
    assert longer[..|longer| - 1] == events;
    assert WonBy(s, Advance(t)) == [] && won + [] == won;
    Grow(Stored(env, s0, events), w);
    IndexesFollowTheLogs(env, whitelist, events);
    assert w in won;
    LastForIsInLog(won, w.duty.pubkey);
    AgreementExactly(env, whitelist, longer, rota, w.duty.pubkey);
  }

  /** When the proposer of a slot never changes and a proposer's responses were stored in the order its
      bids were accepted, then once nothing is pending the two indexes agree again: what is stored for
      the proposer is the last bid accepted for it, which is the best bid of that bid's slot. */
  lemma OrderedStoresAgree(env: Env, whitelist: seq<PublicKey>, events: seq<Event>, rota: U64 -> PublicKey,
                           pubkey: PublicKey)
    requires RepliesAgree(rota, events)
    requires NothingPending(Run(env, Start(whitelist), events))
    requires Of(Stored(env, Start(whitelist), events), pubkey) <= Of(Won(env, Start(whitelist), events), pubkey)
    ensures Agree(Run(env, Start(whitelist), events).storage.blinded, Run(env, Start(whitelist), events).best,
                  Won(env, Start(whitelist), events), pubkey)
    ensures var last := LastFor(Won(env, Start(whitelist), events), pubkey);
            NoEviction(events) && last.Some? ==> last.value.Slot() in Run(env, Start(whitelist), events).best
  {
    var s0 := Start(whitelist);
    var s, won, stored := Run(env, s0, events), Won(env, s0, events), Stored(env, s0, events);
    IndexesFollowTheLogs(env, whitelist, events);
    AgreementWhenSettled(s, won, stored, pubkey);
    AgreementExactly(env, whitelist, events, rota, pubkey);
    if NoEviction(events) { AcceptedValuesClimb(env, whitelist, events); }
  }
}
