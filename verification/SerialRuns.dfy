/** The two models are of one relay: every run of whole calls ends with the same stores as a run of
    interleaved steps in which no call happens to be interrupted.  What is proved of the stores in all
    interleavings so holds of whole calls too, and whole calls that go wrong are an interleaving that does. */
module SerialRuns {
  import opened Entities
  import opened Datastore
  import opened DutySync
  import opened InterleavedRelay
  import AtomicRelay

  function Advances(t: nat, steps: nat): seq<Event> {
    if steps == 0 then [] else Advances(t, steps - 1) + [Advance(t)]
  }

  predicate RunsTo(env: Env, s: System, events: seq<Event>, s': System) {
    Run(env, s, events) == s'
  }

  lemma RunsOn(env: Env, s: System, events: seq<Event>, m: System, e: Event)
    requires RunsTo(env, s, events, m)
    ensures RunsTo(env, s, events + [e], Step(env, m, e))
  {
    assert (events + [e])[..|events|] == events;
  }

  /** Some steps of a task, as a run. */
  lemma {:induction false} RunOfAdvances(env: Env, s: System, t: nat, steps: nat)
    ensures RunsTo(env, s, Advances(t, steps), Alone(env, s, t, steps))
  {
    if steps > 0 {
      RunOfAdvances(env, s, t, steps - 1);
      RunsOn(env, s, Advances(t, steps - 1), Alone(env, s, t, steps - 1), Advance(t));
    }
  }

  lemma RunOne(env: Env, s: System, e: Event)
    ensures Run(env, s, [e]) == Step(env, s, e)
  {
    assert [e][..0] == [];
    assert Run(env, s, []) == s;
  }

  /** One event, then some steps of a task. */
  lemma RunThenAdvance(env: Env, s: System, e: Event, t: nat, steps: nat)
    ensures Run(env, s, [e] + Advances(t, steps)) == Alone(env, Step(env, s, e), t, steps)
  {
    RunOne(env, s, e);
    RunConcat(env, s, [e], Advances(t, steps));
    RunOfAdvances(env, Step(env, s, e), t, steps);
  }

  /** The stores the two models share. */
  predicate SameStores(s: System, r: AtomicRelay.Relay) {
    s.storage == r.storage && s.best == r.best
  }

  function At(s: System, pc: SyncPc): System {
    s.(tasks := s.tasks + [Syncing(0, pc)])
  }

  lemma SyncAdvances(env: Env, s: System, pc: SyncPc)
    requires !pc.AtCommit?
    ensures Step(env, At(s, pc), Advance(|s.tasks|)) == At(s, AdvanceSync(s.storage, pc).1)
  {
    var pc' := AdvanceSync(s.storage, pc).1;
    assert (s.tasks + [Syncing(0, pc)])[|s.tasks| := Syncing(0, pc')] == s.tasks + [Syncing(0, pc')];
  }

  lemma SyncAnswers(env: Env, s: System, pc: SyncPc, reply: Option<seq<ProposerDuty>>)
    ensures Step(env, At(s, pc), DutiesReply(|s.tasks|, reply)) == At(s, AnswerSync(pc, reply))
  {
    var pc' := AnswerSync(pc, reply);
    assert (s.tasks + [Syncing(0, pc)])[|s.tasks| := Syncing(0, pc')] == s.tasks + [Syncing(0, pc')];
  }

  lemma Prepend(env: Env, s: System, e: Event, rest: seq<Event>)
    ensures Run(env, s, [e] + rest) == Run(env, Step(env, s, e), rest)
  {
    RunOne(env, s, e);
    RunConcat(env, s, [e], rest);
  }

  function One(regs: map<PublicKey, ValidatorRegistration>, duty: ProposerDuty): seq<ProposerDuty> {
    if duty.pubkey in regs then [duty] else []
  }

  lemma FilterAdvances(st: StorageState, earlier: Option<seq<ProposerDuty>>, todo: seq<ProposerDuty>,
                       kept: seq<ProposerDuty>)
    requires todo != []
    ensures AdvanceSync(st, Filtering(earlier, true, todo, kept)).1
         == Filtering(earlier, true, todo[1..], kept + One(st.registrations, todo[0]))
  {
  }

  lemma FilterSplits(regs: map<PublicKey, ValidatorRegistration>, todo: seq<ProposerDuty>, kept: seq<ProposerDuty>)
    requires todo != []
    ensures kept + FilterDuties(regs, todo) == (kept + One(regs, todo[0])) + FilterDuties(regs, todo[1..])
  {
    assert FilterDuties(regs, todo) == One(regs, todo[0]) + FilterDuties(regs, todo[1..]);
  }

  /** The lookups of a filter, one by one, come to what the filter keeps. */
  lemma {:induction false} FilterLoop(env: Env, s: System, earlier: Option<seq<ProposerDuty>>, todo: seq<ProposerDuty>,
                                      kept: seq<ProposerDuty>)
    returns (events: seq<Event>)
    ensures Run(env, At(s, Filtering(earlier, true, todo, kept)), events)
         == At(s, Filtered(earlier, kept + FilterDuties(s.storage.registrations, todo)))
    decreases |todo|
  {
    var pc := Filtering(earlier, true, todo, kept);
    if todo == [] {
      SyncAdvances(env, s, pc);
      events := [Advance(|s.tasks|)];
      RunOne(env, At(s, pc), Advance(|s.tasks|));
      assert kept + [] == kept;
    } else {
      SyncAdvances(env, s, pc);
      FilterAdvances(s.storage, earlier, todo, kept);
      FilterSplits(s.storage.registrations, todo, kept);
      var rest := FilterLoop(env, s, earlier, todo[1..], kept + One(s.storage.registrations, todo[0]));
      events := [Advance(|s.tasks|)] + rest;
      Prepend(env, At(s, pc), Advance(|s.tasks|), rest);
    }
  }

  lemma FilterAlone(env: Env, s: System, earlier: Option<seq<ProposerDuty>>, duties: seq<ProposerDuty>)
    returns (events: seq<Event>)
    ensures Run(env, At(s, Filtering(earlier, false, duties, [])), events)
         == At(s, Filtered(earlier, FilterDuties(s.storage.registrations, duties)))
  {
    var pc := Filtering(earlier, false, duties, []);
    SyncAdvances(env, s, pc);
    if s.storage.registrations == map[] {
      events := [Advance(|s.tasks|)];
      RunOne(env, At(s, pc), Advance(|s.tasks|));
      NobodyRegistered(duties);
    } else {
      var rest := FilterLoop(env, s, earlier, duties, []);
      events := [Advance(|s.tasks|)] + rest;
      Prepend(env, At(s, pc), Advance(|s.tasks|), rest);
      assert [] + FilterDuties(s.storage.registrations, duties) == FilterDuties(s.storage.registrations, duties);
    }
  }

  /** An uninterrupted refresh up to its store. */
  lemma RefreshGathers(env: Env, s: System, current: seq<ProposerDuty>, next: Option<seq<ProposerDuty>>)
    returns (events: seq<Event>)
    ensures Run(env, At(s, AwaitCurrent), events)
         == At(s, AtCommit(SyncedDuties(s.storage, Some(current), next).duties))
  {
    var t, regs := |s.tasks|, s.storage.registrations;
    var kept := FilterDuties(regs, current);
    var first := FilterAlone(env, s, None, current);
    SyncAnswers(env, s, AwaitCurrent, Some(current));
    Prepend(env, At(s, AwaitCurrent), DutiesReply(t, Some(current)), first);
    var before := [DutiesReply(t, Some(current))] + first;
    SyncAnswers(env, s, AwaitNext(kept), next);
    if next.None? {
      events := before + [DutiesReply(t, None)];
      RunOne(env, At(s, AwaitNext(kept)), DutiesReply(t, None));
      RunConcat(env, At(s, AwaitCurrent), before, [DutiesReply(t, None)]);
      assert kept + [] == kept;
    } else {
      var second := FilterAlone(env, s, Some(kept), next.value);
      Prepend(env, At(s, AwaitNext(kept)), DutiesReply(t, next), second);
      events := before + ([DutiesReply(t, next)] + second);
      RunConcat(env, At(s, AwaitCurrent), before, [DutiesReply(t, next)] + second);
    }
  }

  lemma CommitStores(env: Env, s: System, duties: seq<ProposerDuty>)
    ensures var s' := Step(env, At(s, AtCommit(duties)), Advance(|s.tasks|));
            s'.storage == s.storage.(duties := duties) && s'.best == s.best
  {
  }

  lemma RefreshAlone(env: Env, s: System, current: Option<seq<ProposerDuty>>, next: Option<seq<ProposerDuty>>)
    returns (events: seq<Event>)
    ensures var s' := Run(env, s, events); s'.storage == SyncedDuties(s.storage, current, next) && s'.best == s.best
  {
    var t := |s.tasks|;
    if current.None? {
      events := [];
    } else {
      var gather := RefreshGathers(env, s, current.value, next);
      var duties := SyncedDuties(s.storage, current, next).duties;
      CommitStores(env, s, duties);
      RunOne(env, At(s, AtCommit(duties)), Advance(t));
      RunConcat(env, At(s, AwaitCurrent), gather, [Advance(t)]);
      events := [BeginSync(0)] + (gather + [Advance(t)]);
      Prepend(env, s, BeginSync(0), gather + [Advance(t)]);
    }
  }

  /** A whole call, step by step. */
  lemma CallAlone(env: Env, s: System, r: AtomicRelay.Relay, call: AtomicRelay.Call) returns (events: seq<Event>)
    requires SameStores(s, r)
    ensures SameStores(Run(env, s, events), AtomicRelay.Apply(env, r, call))
  {
    var t := |s.tasks|;
    match call
    case Submit(bid) =>
      events := [BeginBid(bid)] + Advances(t, 6);
      RunThenAdvance(env, s, BeginBid(bid), t, 6);
      UninterruptedBid(env, s, bid);
    case Retrieve(slot, parentHash, pubkey) =>
      events := [BeginRetrieve(slot, parentHash, pubkey)] + Advances(t, 5);
      RunThenAdvance(env, s, BeginRetrieve(slot, parentHash, pubkey), t, 5);
      UninterruptedRetrieve(env, s, slot, parentHash, pubkey);
    case Reveal(slot, index, blockHash, signature) =>
      events := [BeginUnblind(slot, index, blockHash, signature)] + Advances(t, 4);
      RunThenAdvance(env, s, BeginUnblind(slot, index, blockHash, signature), t, 4);
      UninterruptedUnblind(env, s, slot, index, blockHash, signature);
    case RefreshDuties(current, next) => events := RefreshAlone(env, s, current, next);
    case RegisterValidator(registration) => events := Once(env, s, RegisterValidator(registration));
    case HeadSeen(head) => events := Once(env, s, HeadSeen(head));
    case AttributesSeen(attributes) => events := Once(env, s, AttributesSeen(attributes));
    case Evict(slot) => events := Once(env, s, Evict(slot));
  }

  lemma Once(env: Env, s: System, e: Event) returns (events: seq<Event>)
    ensures Run(env, s, events) == Step(env, s, e)
  {
    events := [e];
    RunOne(env, s, e);
  }

  /** Every run of whole calls is reached by some interleaving, with the same stores at its end. */
  lemma {:induction false} EveryAtomicRunIsARun(env: Env, whitelist: seq<PublicKey>, calls: seq<AtomicRelay.Call>)
    returns (events: seq<Event>)
    ensures SameStores(Run(env, Start(whitelist), events), AtomicRelay.Play(env, AtomicRelay.Fresh(whitelist), calls))
  {
    events := [];
    if calls != [] {
      var n := |calls| - 1;
      var before := EveryAtomicRunIsARun(env, whitelist, calls[..n]);
      var s := Run(env, Start(whitelist), before);
      var last := CallAlone(env, s, AtomicRelay.Play(env, AtomicRelay.Fresh(whitelist), calls[..n]), calls[n]);
      events := before + last;
      RunConcat(env, Start(whitelist), before, last);
    }
  }
}
