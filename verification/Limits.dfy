/** Runs that show why the theorems ask for what they ask.  While calls overlap, agreement of the indexes
    can be lost when accepted bids are stored out of order, a header can be handed out before its payload
    is stored, and a bid that was slow to win can replace a committed payload though nothing is out of
    order.  When calls do not overlap, a head that moves back can undo a commitment. */
module Limits {
  import opened Entities
  import opened Datastore
  import opened UseCases
  import opened InterleavedRelay
  import opened WinLog
  import opened Agreement
  import A = AtomicRelay
  import DutySync

  function Key(): PublicKey { seq(48, i => 1) }

  function Hash(mark: Byte): B256 { seq(32, i => mark) }

  function Seal(): Signature { seq(96, i => 0) }

  /** An environment that accepts every signature. */
  function Trusting(): Env {
    Env(b => true, r => true, (pk, slot, index, hash, sig) => true, t => Hash(0), w => Hash(0), h => Seal())
  }

  function Payload(mark: Byte): ExecutionPayload {
    ExecutionPayload(Hash(0), seq(20, i => 0), Hash(0), Hash(0), seq(256, i => 0), Hash(0), 0, 0, 0, 0, [], 0,
                     Hash(mark), [], [], 0, 0)
  }

  function Bid(slot: U64, value: U256, mark: Byte): BidSubmission {
    BidSubmission(BidTrace(slot, Hash(0), Hash(mark), Key(), Key(), seq(20, i => 0), 0, 0, value),
                  Payload(mark), BlobsBundle([], [], []), Seal())
  }

  function Duty(slot: U64): ProposerDuty { ProposerDuty(Key(), 0, slot) }

  /** One proposer for slots 1 and 2. */
  function Duties(): seq<ProposerDuty> { [Duty(1), Duty(2)] }

  function Registration(): SignedRegistration {
    SignedRegistration(ValidatorRegistration(seq(20, i => 0), 0, 0, Key()), Seal())
  }

  lemma HashesDiffer()
    ensures Hash(1) != Hash(2)
  {
    assert Hash(1)[0] != Hash(2)[0];
  }

  lemma DutiesFound()
    ensures FindDuty(Duties(), 1) == Some(Duty(1)) && FindDuty(Duties(), 2) == Some(Duty(2))
  {
    assert Duties()[1..] == [Duty(2)];
  }

  predicate HeadNeverDecreases(env: Env, s: System, events: seq<Event>) {
    events != [] ==>
      var before, e := events[..|events| - 1], events[|events| - 1];
      && HeadNeverDecreases(env, s, before)
      && (e.HeadSeen? ==> Run(env, s, before).storage.headSlot <= e.head)
  }

  /** Nothing is evicted, slots keep their proposers, the head never goes back. */
  ghost predicate Benign(events: seq<Event>) {
    && NoEviction(events)
    && RepliesAgree((slot: U64) => Key(), events)
    && HeadNeverDecreases(Trusting(), Start([Key()]), events)
  }

  /** After these events the relay stands at `s`, having accepted `won` and stored `stored`. */
  ghost predicate Stands(events: seq<Event>, s: System, won: seq<Win>, stored: seq<Win>) {
    && Benign(events)
    && Run(Trusting(), Start([Key()]), events) == s
    && Won(Trusting(), Start([Key()]), events) == won
    && Stored(Trusting(), Start([Key()]), events) == stored
  }

  predicate Allowed(s: System, e: Event) {
    && !e.Evict?
    && (e.DutiesReply? && e.reply.Some? ==> e.reply.value == Duties())
    && (e.HeadSeen? ==> s.storage.headSlot <= e.head)
  }

  lemma Then(events: seq<Event>, s: System, won: seq<Win>, stored: seq<Win>, e: Event, s': System)
    returns (longer: seq<Event>)
    requires Stands(events, s, won, stored) && Allowed(s, e) && s' == Step(Trusting(), s, e)
    ensures longer == events + [e] && Stands(longer, s', won + WonBy(s, e), stored + StoredBy(s, e))
  {
    longer := events + [e];
    assert longer[..|events|] == events;
  }

  /** An event that neither accepts nor stores. */
  lemma Quietly(events: seq<Event>, s: System, won: seq<Win>, stored: seq<Win>, e: Event, s': System)
    returns (longer: seq<Event>)
    requires Stands(events, s, won, stored) && Allowed(s, e) && s' == Step(Trusting(), s, e)
    requires WonBy(s, e) == [] && StoredBy(s, e) == []
    ensures longer == events + [e] && Stands(longer, s', won, stored)
  {
    longer := Then(events, s, won, stored, e, s');
    assert won + [] == won && stored + [] == stored;
  }

  function Registered(): StorageState {
    EmptyStorage([Key()]).(registrations := map[Key() := Registration().message])
  }

  function Syncs(st: StorageState, pc: SyncPc): System { System(st, map[], [Syncing(0, pc)]) }

  /** The proposer of slots 1 and 2 is registered and known, and the head is at 0 or 1. */
  function Ready(head: U64): StorageState { Registered().(duties := Duties(), headSlot := head) }

  function Keeps(head: U64, bid: BidSubmission): StorageState {
    Ready(head).(blinded := map[Key() := bid.ToResponse()])
  }

  function Prepared(): System { Syncs(Ready(0), SyncDone(true)) }

  lemma SyncMoves(events: seq<Event>, pc: SyncPc, st': StorageState, pc': SyncPc) returns (longer: seq<Event>)
    requires Stands(events, Syncs(Registered(), pc), [], []) && AdvanceSync(Registered(), pc) == (st', pc')
    ensures Stands(longer, Syncs(st', pc'), [], [])
  {
    var s := Syncs(Registered(), pc);
    assert s.tasks[0 := Syncing(0, pc')] == [Syncing(0, pc')];
    longer := Quietly(events, s, [], [], Advance(0), Syncs(st', pc'));
  }

  lemma SyncAnswered(events: seq<Event>, pc: SyncPc, reply: Option<seq<ProposerDuty>>, pc': SyncPc)
    returns (longer: seq<Event>)
    requires Stands(events, Syncs(Registered(), pc), [], []) && AnswerSync(pc, reply) == pc'
    requires reply.Some? ==> reply.value == Duties()
    ensures Stands(longer, Syncs(Registered(), pc'), [], [])
  {
    var s := Syncs(Registered(), pc);
    assert s.tasks[0 := Syncing(0, pc')] == [Syncing(0, pc')];
    longer := Quietly(events, s, [], [], DutiesReply(0, reply), Syncs(Registered(), pc'));
  }

  lemma StandsAtFirst()
    ensures Stands([], Start([Key()]), [], [])
  {
  }

  lemma Registers()
    ensures Step(Trusting(), Start([Key()]), RegisterValidator(Registration())) == System(Registered(), map[], [])
  {
  }

  lemma BeginsSync()
    ensures Step(Trusting(), System(Registered(), map[], []), BeginSync(0)) == Syncs(Registered(), AwaitCurrent)
  {
  }

  lemma PrepareSync() returns (events: seq<Event>)
    ensures Stands(events, Syncs(Registered(), AwaitCurrent), [], [])
  {
    StandsAtFirst();
    Registers();
    BeginsSync();
    events := Quietly([], Start([Key()]), [], [], RegisterValidator(Registration()),
                      System(Registered(), map[], []));
    events := Quietly(events, System(Registered(), map[], []), [], [], BeginSync(0),
                      Syncs(Registered(), AwaitCurrent));
  }

  lemma PrepareFilter() returns (events: seq<Event>)
    ensures Stands(events, Syncs(Registered(), Filtering(None, true, [], Duties())), [], [])
  {
    assert Key() in Registered().registrations;
    assert Duties()[1..] == [Duty(2)] && [Duty(2)][1..] == [] && [] + [Duty(1)] == [Duty(1)];
    assert [Duty(1)] + [Duty(2)] == Duties();
    events := PrepareSync();
    events := SyncAnswered(events, AwaitCurrent, Some(Duties()), Filtering(None, false, Duties(), []));
    events := SyncMoves(events, Filtering(None, false, Duties(), []), Registered(),
                        Filtering(None, true, Duties(), []));
    events := SyncMoves(events, Filtering(None, true, Duties(), []), Registered(),
                        Filtering(None, true, [Duty(2)], [Duty(1)]));
    events := SyncMoves(events, Filtering(None, true, [Duty(2)], [Duty(1)]), Registered(),
                        Filtering(None, true, [], Duties()));
  }

  lemma Prepare() returns (events: seq<Event>)
    ensures Stands(events, Prepared(), [], [])
  {
    events := PrepareFilter();
    events := SyncMoves(events, Filtering(None, true, [], Duties()), Registered(), AwaitNext(Duties()));
    events := SyncAnswered(events, AwaitNext(Duties()), None, AtCommit(Duties()));
    events := SyncMoves(events, AtCommit(Duties()), Ready(0), SyncDone(true));
  }

  lemma BidMoves(events: seq<Event>, s: System, won: seq<Win>, stored: seq<Win>, bid: BidSubmission, pc: BidPc,
                 pc': BidPc)
    returns (longer: seq<Event>)
    requires Stands(events, s.(tasks := s.tasks + [Bidding(bid, pc)]), won, stored)
    requires !pc.AtCompare? && !pc.AtStore?
    requires AdvanceBid(Trusting(), s.storage, s.best, bid, pc) == (s.storage, s.best, pc')
    ensures Stands(longer, s.(tasks := s.tasks + [Bidding(bid, pc')]), won, stored)
  {
    var t, tasks := |s.tasks|, s.tasks + [Bidding(bid, pc)];
    assert tasks[t := Bidding(bid, pc')] == s.tasks + [Bidding(bid, pc')];
    longer := Quietly(events, s.(tasks := tasks), won, stored, Advance(t),
                      s.(tasks := s.tasks + [Bidding(bid, pc')]));
  }

  predicate Open(st: StorageState, bid: BidSubmission, slot: U64) {
    && st.whitelist == [Key()] && st.duties == Duties() && NextSlot(st.headSlot) == slot
    && st.attributes.prevRandao == Hash(0) == bid.payload.prevRandao
    && bid.message.slot == slot && bid.message.value > 0 && bid.message.builderPubkey == Key()
    && (slot == 1 || slot == 2)
  }

  /** A submission runs until it has passed every guard and is about to compete. */
  lemma Enter(s: System, events: seq<Event>, won: seq<Win>, stored: seq<Win>, bid: BidSubmission, slot: U64)
    returns (longer: seq<Event>)
    requires Stands(events, s, won, stored) && Open(s.storage, bid, slot)
    ensures Stands(longer, s.(tasks := s.tasks + [Bidding(bid, AtCompare(Duty(slot)))]), won, stored)
  {
    DutiesFound();
    longer := Quietly(events, s, won, stored, BeginBid(bid), s.(tasks := s.tasks + [Bidding(bid, AtWhitelist)]));
    longer := BidMoves(longer, s, won, stored, bid, AtWhitelist, AtHead);
    longer := BidMoves(longer, s, won, stored, bid, AtHead, AtAttributes);
    longer := BidMoves(longer, s, won, stored, bid, AtAttributes, AtDuty);
    longer := BidMoves(longer, s, won, stored, bid, AtDuty, AtCompare(Duty(slot)));
  }

  function Winner(s: System, t: nat): System
    requires t < |s.tasks| && s.tasks[t].Bidding? && s.tasks[t].bidPc.AtCompare?
  {
    var bid, duty := s.tasks[t].bid, s.tasks[t].bidPc.duty;
    s.(best := s.best[bid.message.slot := bid], tasks := s.tasks[t := Bidding(bid, AtStore(duty))])
  }

  lemma Compete(s: System, events: seq<Event>, won: seq<Win>, stored: seq<Win>, t: nat) returns (longer: seq<Event>)
    requires Stands(events, s, won, stored)
    requires t < |s.tasks| && s.tasks[t].Bidding? && s.tasks[t].bidPc.AtCompare?
    requires Beats(s.best, s.tasks[t].bid.message.slot, s.tasks[t].bid)
    ensures Stands(longer, Winner(s, t), won + [Win(t, s.tasks[t].bid, s.tasks[t].bidPc.duty)], stored)
  {
    longer := Then(events, s, won, stored, Advance(t), Winner(s, t));
    assert stored + [] == stored;
  }

  function Keeper(s: System, t: nat): System
    requires t < |s.tasks| && s.tasks[t].Bidding? && s.tasks[t].bidPc.AtStore?
  {
    var bid, duty := s.tasks[t].bid, s.tasks[t].bidPc.duty;
    s.(storage := s.storage.(blinded := s.storage.blinded[duty.pubkey := bid.ToResponse()]),
       tasks := s.tasks[t := Bidding(bid, BidDone(Ok(())))])
  }

  lemma Store(s: System, events: seq<Event>, won: seq<Win>, stored: seq<Win>, t: nat) returns (longer: seq<Event>)
    requires Stands(events, s, won, stored)
    requires t < |s.tasks| && s.tasks[t].Bidding? && s.tasks[t].bidPc.AtStore?
    ensures Stands(longer, Keeper(s, t), won, stored + [Win(t, s.tasks[t].bid, s.tasks[t].bidPc.duty)])
  {
    longer := Then(events, s, won, stored, Advance(t), Keeper(s, t));
    assert won + [] == won;
  }

  function Idle(): Task { Syncing(0, SyncDone(true)) }

  function Entered(w: Win): Task { Bidding(w.bid, AtCompare(w.duty)) }

  function Ahead(w: Win): Task { Bidding(w.bid, AtStore(w.duty)) }

  function Done(w: Win): Task { Bidding(w.bid, BidDone(Ok(()))) }

  function Earlier(): BidSubmission { Bid(1, 100, 1) }

  function Later(): BidSubmission { Bid(2, 100, 2) }

  function Low(): Win { Win(1, Earlier(), Duty(1)) }

  function High(): Win { Win(2, Bid(1, 200, 2), Duty(1)) }

  lemma LowEnters() returns (events: seq<Event>)
    ensures Stands(events, System(Ready(0), map[], [Idle(), Entered(Low())]), [], [])
  {
    events := Prepare();
    events := Enter(Prepared(), events, [], [], Low().bid, 1);
    assert Prepared().tasks + [Entered(Low())] == [Idle(), Entered(Low())];
  }

  lemma LowWins() returns (events: seq<Event>)
    ensures Stands(events, System(Ready(0), map[1 := Low().bid], [Idle(), Ahead(Low())]), [Low()], [])
  {
    events := LowEnters();
    var s := System(Ready(0), map[], [Idle(), Entered(Low())]);
    events := Compete(s, events, [], [], 1);
    assert Winner(s, 1) == System(Ready(0), map[1 := Low().bid], [Idle(), Ahead(Low())]);
    assert [] + [Low()] == [Low()];
  }

  lemma HighEnters() returns (events: seq<Event>)
    ensures Stands(events, System(Ready(0), map[1 := Low().bid], [Idle(), Ahead(Low()), Entered(High())]), [Low()], [])
  {
    events := LowWins();
    var s := System(Ready(0), map[1 := Low().bid], [Idle(), Ahead(Low())]);
    events := Enter(s, events, [Low()], [], High().bid, 1);
    assert s.tasks + [Entered(High())] == [Idle(), Ahead(Low()), Entered(High())];
  }

  lemma BothWin() returns (events: seq<Event>)
    ensures Stands(events, System(Ready(0), map[1 := High().bid], [Idle(), Ahead(Low()), Ahead(High())]),
                   [Low(), High()], [])
  {
    events := HighEnters();
    var s := System(Ready(0), map[1 := Low().bid], [Idle(), Ahead(Low()), Entered(High())]);
    events := Compete(s, events, [Low()], [], 2);
    assert Winner(s, 2) == System(Ready(0), map[1 := High().bid], [Idle(), Ahead(Low()), Ahead(High())]);
  }

  lemma HighIsStored() returns (events: seq<Event>)
    ensures Stands(events, System(Keeps(0, High().bid), map[1 := High().bid], [Idle(), Ahead(Low()), Done(High())]),
                   [Low(), High()], [High()])
  {
    events := BothWin();
    var s := System(Ready(0), map[1 := High().bid], [Idle(), Ahead(Low()), Ahead(High())]);
    events := Store(s, events, [Low(), High()], [], 2);
    assert Keeper(s, 2) == System(Keeps(0, High().bid), map[1 := High().bid], [Idle(), Ahead(Low()), Done(High())]);
  }

  /** Two bids win in turn and are stored the other way round: nothing is pending, nothing was evicted,
      slots kept their proposers, and still the proposer is left with the payload of the losing bid. */
  lemma OutOfOrderStoresDisagree() returns (events: seq<Event>)
    ensures Benign(events)
    ensures NothingPending(Run(Trusting(), Start([Key()]), events))
    ensures var s := Run(Trusting(), Start([Key()]), events);
            && s.best == map[1 := Bid(1, 200, 2)]
            && s.storage.blinded == map[Key() := Bid(1, 100, 1).ToResponse()]
            && !Agree(s.storage.blinded, s.best, Won(Trusting(), Start([Key()]), events), Key())
  {
    events := HighIsStored();
    var s := System(Keeps(0, High().bid), map[1 := High().bid], [Idle(), Ahead(Low()), Done(High())]);
    events := Store(s, events, [Low(), High()], [High()], 1);
    assert Keeper(s, 1).tasks == [Idle(), Done(Low()), Done(High())];
    assert LastFor([Low(), High()], Key()) == Some(High());
    HashesDiffer();
  }

  /** A header can be handed out for a bid that has won but is not stored yet; revealing it then fails. */
  lemma HeaderBeforeStore() returns (events: seq<Event>)
    ensures Benign(events)
    ensures var s := Run(Trusting(), Start([Key()]), events);
            && GetHeader(Trusting(), s.storage, s.best, 1, Hash(0), Key()).Ok?
            && GetHeader(Trusting(), s.storage, s.best, 1, Hash(0), Key()).value.message.blockHash == Hash(1)
            && Unblind(Trusting(), s.storage, 1, 0, Hash(1), Seal()) == Err(NoBlindedBlockResponse)
  {
    events := LowWins();
    DutiesFound();
  }

  function Next(): Win { Win(2, Later(), Duty(2)) }

  /** A bid for slot 1 has passed its guards when the head moves on. */
  lemma SlowBidEnters() returns (events: seq<Event>)
    ensures Stands(events, System(Ready(1), map[], [Idle(), Entered(Low())]), [], [])
  {
    events := LowEnters();
    var s := System(Ready(0), map[], [Idle(), Entered(Low())]);
    events := Quietly(events, s, [], [], HeadSeen(1), s.(storage := Ready(1)));
  }

  lemma NextEnters() returns (events: seq<Event>)
    ensures Stands(events, System(Ready(1), map[], [Idle(), Entered(Low()), Entered(Next())]), [], [])
  {
    events := SlowBidEnters();
    var s := System(Ready(1), map[], [Idle(), Entered(Low())]);
    events := Enter(s, events, [], [], Next().bid, 2);
    assert s.tasks + [Entered(Next())] == [Idle(), Entered(Low()), Entered(Next())];
  }

  lemma NextWins() returns (events: seq<Event>)
    ensures Stands(events, System(Ready(1), map[2 := Next().bid], [Idle(), Entered(Low()), Ahead(Next())]),
                   [Next()], [])
  {
    events := NextEnters();
    var s := System(Ready(1), map[], [Idle(), Entered(Low()), Entered(Next())]);
    events := Compete(s, events, [], [], 2);
    assert Winner(s, 2) == System(Ready(1), map[2 := Next().bid], [Idle(), Entered(Low()), Ahead(Next())]);
    assert [] + [Next()] == [Next()];
  }

  /** The bid for slot 2 has run to its end, and the bid for slot 1 still waits. */
  lemma SlowBidWaits() returns (events: seq<Event>)
    ensures Stands(events, System(Keeps(1, Next().bid), map[2 := Next().bid],
                                  [Idle(), Entered(Low()), Done(Next())]), [Next()], [Next()])
  {
    events := NextWins();
    var s := System(Ready(1), map[2 := Next().bid], [Idle(), Entered(Low()), Ahead(Next())]);
    events := Store(s, events, [Next()], [], 2);
    assert Keeper(s, 2).tasks == [Idle(), Entered(Low()), Done(Next())];
    assert [] + [Next()] == [Next()];
  }

  lemma SlowBidCompetes() returns (events: seq<Event>)
    ensures Stands(events, System(Keeps(1, Next().bid), map[2 := Next().bid, 1 := Low().bid],
                                  [Idle(), Ahead(Low()), Done(Next())]), [Next(), Low()], [Next()])
  {
    events := SlowBidWaits();
    var s := System(Keeps(1, Next().bid), map[2 := Next().bid], [Idle(), Entered(Low()), Done(Next())]);
    events := Compete(s, events, [Next()], [Next()], 1);
    assert Winner(s, 1).tasks == [Idle(), Ahead(Low()), Done(Next())];
  }

  lemma SlowBidWins() returns (events: seq<Event>)
    ensures Stands(events, System(Keeps(1, Low().bid),
                                  map[2 := Next().bid, 1 := Low().bid], [Idle(), Done(Low()), Done(Next())]),
                   [Next(), Low()], [Next(), Low()])
  {
    events := SlowBidCompetes();
    var s := System(Keeps(1, Next().bid), map[2 := Next().bid, 1 := Low().bid], [Idle(), Ahead(Low()), Done(Next())]);
    events := Store(s, events, [Next(), Low()], [Next()], 1);
    assert Keeper(s, 1).tasks == [Idle(), Done(Low()), Done(Next())];
  }

  /** Order and a climbing head do not save a commitment either.  The slow bid for slot 1 wins after the bid
      for slot 2; responses are stored in the order of acceptance, none is pending, nothing was evicted, the
      head never went back.  A header for slot 2 is still handed out, and its reveal fails. */
  lemma SlowBidBreaksCommitment() returns (events: seq<Event>)
    ensures Benign(events)
    ensures NothingPending(Run(Trusting(), Start([Key()]), events))
    ensures Stored(Trusting(), Start([Key()]), events) == Won(Trusting(), Start([Key()]), events)
    ensures var s := Run(Trusting(), Start([Key()]), events);
            && GetHeader(Trusting(), s.storage, s.best, 2, Hash(0), Key()).Ok?
            && GetHeader(Trusting(), s.storage, s.best, 2, Hash(0), Key()).value.message.blockHash == Hash(2)
            && Unblind(Trusting(), s.storage, 2, 0, Hash(2), Seal()) == Err(BlockHashMismatch)
  {
    events := SlowBidWins();
    DutiesFound();
    HashesDiffer();
  }

  /** The same relay, one call at a time. */
  lemma Unfold(r: A.Relay, calls: seq<A.Call>, call: A.Call, r': A.Relay)
    requires A.Play(Trusting(), A.Fresh([Key()]), calls) == r && A.Apply(Trusting(), r, call) == r'
    ensures A.Play(Trusting(), A.Fresh([Key()]), calls + [call]) == r'
  {
    assert (calls + [call])[..|calls|] == calls;
  }

  /** Register, learn the duties, see the head, take a bid for slot 2. */
  function Commitment(): seq<A.Call> {
    [A.RegisterValidator(Registration()), A.RefreshDuties(Some(Duties()), None), A.HeadSeen(1), A.Submit(Later())]
  }

  lemma ServeTwoSlots() returns (calls: seq<A.Call>)
    ensures calls == [A.RegisterValidator(Registration()), A.RefreshDuties(Some(Duties()), None)]
    ensures A.Play(Trusting(), A.Fresh([Key()]), calls) == A.Relay(Ready(0), map[])
  {
    calls := [];
    var registered := A.Relay(Registered(), map[]);
    Unfold(A.Fresh([Key()]), calls, A.RegisterValidator(Registration()), registered);
    calls := calls + [A.RegisterValidator(Registration())];
    assert DutySync.FilterDuties(Registered().registrations, Duties()) == Duties() by {
      assert Duties()[1..] == [Duty(2)];
    }
    Unfold(registered, calls, A.RefreshDuties(Some(Duties()), None), A.Relay(Ready(0), map[]));
    calls := calls + [A.RefreshDuties(Some(Duties()), None)];
  }

  lemma CommitForSlotTwo()
    ensures A.Play(Trusting(), A.Fresh([Key()]), Commitment()) == A.Relay(Keeps(1, Later()), map[2 := Later()])
  {
    var calls := ServeTwoSlots();
    Unfold(A.Relay(Ready(0), map[]), calls, A.HeadSeen(1), A.Relay(Ready(1), map[]));
    calls := calls + [A.HeadSeen(1)];
    DutiesFound();
    Unfold(A.Relay(Ready(1), map[]), calls, A.Submit(Later()), A.Relay(Keeps(1, Later()), map[2 := Later()]));
    assert calls + [A.Submit(Later())] == Commitment();
  }

  /** Back at head 0 the relay takes a bid for slot 1, over the payload kept for slot 2. */
  lemma EarlierSlotReplaces()
    ensures A.Apply(Trusting(), A.Relay(Keeps(0, Later()), map[2 := Later()]), A.Submit(Earlier()))
         == A.Relay(Keeps(0, Earlier()), map[2 := Later(), 1 := Earlier()])
  {
  }

  lemma LoseSlotTwo() returns (calls: seq<A.Call>)
    ensures calls == Commitment() + [A.HeadSeen(0), A.Submit(Earlier()), A.HeadSeen(1)]
    ensures A.Play(Trusting(), A.Fresh([Key()]), calls)
         == A.Relay(Keeps(1, Earlier()), map[2 := Later(), 1 := Earlier()])
  {
    CommitForSlotTwo();
    calls := Commitment();
    var committed, back := A.Relay(Keeps(1, Later()), map[2 := Later()]), A.Relay(Keeps(0, Later()), map[2 := Later()]);
    var lost := A.Relay(Keeps(0, Earlier()), map[2 := Later(), 1 := Earlier()]);
    Unfold(committed, calls, A.HeadSeen(0), back);
    calls := calls + [A.HeadSeen(0)];
    EarlierSlotReplaces();
    Unfold(back, calls, A.Submit(Earlier()), lost);
    calls := calls + [A.Submit(Earlier())];
    Unfold(lost, calls, A.HeadSeen(1), A.Relay(Keeps(1, Earlier()), map[2 := Later(), 1 := Earlier()]));
    calls := calls + [A.HeadSeen(1)];
  }

  /** Without overlap but with a head that moves back, a later bid for an earlier slot of the same
      proposer replaces the committed payload, so the header for the later slot cannot be redeemed. */
  lemma MovingHeadBackBreaksCommitment() returns (calls: seq<A.Call>)
    ensures A.RefreshesFollow((slot: U64) => Key(), calls)
    ensures var r := A.Play(Trusting(), A.Fresh([Key()]), calls);
            && GetHeader(Trusting(), r.storage, r.best, 2, Hash(0), Key()).Ok?
            && GetHeader(Trusting(), r.storage, r.best, 2, Hash(0), Key()).value.message.blockHash == Hash(2)
            && Unblind(Trusting(), r.storage, 2, 0, Hash(2), Seal()) == Err(BlockHashMismatch)
  {
    calls := LoseSlotTwo();
    DutiesFound();
    HashesDiffer();
  }

  lemma Climbs(calls: seq<A.Call>, call: A.Call)
    requires A.HeadNeverDecreases(Trusting(), A.Fresh([Key()]), calls)
    requires call.HeadSeen? ==> A.Play(Trusting(), A.Fresh([Key()]), calls).storage.headSlot <= call.head
    ensures A.HeadNeverDecreases(Trusting(), A.Fresh([Key()]), calls + [call])
  {
    assert (calls + [call])[..|calls|] == calls;
  }

  lemma CommitmentClimbs()
    ensures A.HeadNeverDecreases(Trusting(), A.Fresh([Key()]), Commitment())
  {
    var registered := [A.RegisterValidator(Registration())];
    var calls := ServeTwoSlots();
    Climbs([], A.RegisterValidator(Registration()));
    assert [] + registered == registered && registered + [A.RefreshDuties(Some(Duties()), None)] == calls;
    Climbs(registered, A.RefreshDuties(Some(Duties()), None));
    Climbs(calls, A.HeadSeen(1));
    Climbs(calls + [A.HeadSeen(1)], A.Submit(Later()));
    assert calls + [A.HeadSeen(1)] + [A.Submit(Later())] == Commitment();
  }

  /** A higher bid whose payload claims the block hash of the committed one, and is another payload. */
  function Twin(): BidSubmission { Bid(2, 200, 2).(payload := Payload(2).(gasLimit := 1)) }

  lemma TwinReplaces()
    ensures A.Play(Trusting(), A.Fresh([Key()]), Commitment() + [A.Submit(Twin())])
         == A.Relay(Keeps(1, Twin()), map[2 := Twin()])
  {
    CommitForSlotTwo();
    DutiesFound();
    Unfold(A.Relay(Keeps(1, Later()), map[2 := Later()]), Commitment(), A.Submit(Twin()),
           A.Relay(Keeps(1, Twin()), map[2 := Twin()]));
  }

  /** A reveal can succeed and still not redeem.  Whole calls, a climbing head, nothing evicted, slots keep
      their proposers; the header for slot 2 is handed out, then a higher bid of the same block hash is
      accepted.  The reveal answers with its payload, which does not build the header. */
  lemma SuccessNeedNotRedeem() returns (calls: seq<A.Call>)
    ensures calls == Commitment() + [A.Submit(Twin())]
    ensures A.RefreshesFollow((slot: U64) => Key(), calls)
    ensures A.HeadNeverDecreases(Trusting(), A.Fresh([Key()]), calls)
    ensures var r := A.Play(Trusting(), A.Fresh([Key()]), Commitment());
            var r' := A.Play(Trusting(), A.Fresh([Key()]), calls);
            && GetHeader(Trusting(), r.storage, r.best, 2, Hash(0), Key()).Ok?
            && var header := GetHeader(Trusting(), r.storage, r.best, 2, Hash(0), Key()).value.message;
               var out := Unblind(Trusting(), r'.storage, 2, 0, header.blockHash, Seal());
               out.Ok? && BuildHeader(Trusting(), out.value.payload) != header
  {
    calls := Commitment() + [A.Submit(Twin())];
    CommitForSlotTwo();
    CommitmentClimbs();
    Climbs(Commitment(), A.Submit(Twin()));
    TwinReplaces();
    DutiesFound();
  }

  /** A bid whose trace and payload name different parents. */
  function Odd(): BidSubmission { Later().(payload := Payload(2).(parentHash := Hash(2))) }

  /** It is accepted, and the header handed out for it has another parent than the one asked for. */
  lemma HeaderOfAnotherParent() returns (calls: seq<A.Call>)
    ensures var r := A.Play(Trusting(), A.Fresh([Key()]), calls);
            && GetHeader(Trusting(), r.storage, r.best, 2, Hash(1), Key()) == Err(NoBidFound)
            && GetHeader(Trusting(), r.storage, r.best, 2, Hash(0), Key()).Ok?
            && GetHeader(Trusting(), r.storage, r.best, 2, Hash(0), Key()).value.message.parentHash == Hash(2)
            && Hash(2) != Hash(0)
  {
    calls := ServeTwoSlots();
    Unfold(A.Relay(Ready(0), map[]), calls, A.HeadSeen(1), A.Relay(Ready(1), map[]));
    calls := calls + [A.HeadSeen(1)];
    DutiesFound();
    Unfold(A.Relay(Ready(1), map[]), calls, A.Submit(Odd()), A.Relay(Keeps(1, Odd()), map[2 := Odd()]));
    calls := calls + [A.Submit(Odd())];
    assert Hash(0)[0] != Hash(1)[0] && Hash(2)[0] != Hash(0)[0];
  }
}
