/** Registrations and duties under interleaving, the steps between the two fetches of a duty
    refresh and between the lookups of its filter included. */
module Registrations {
  import opened Entities
  import opened Datastore
  import opened InterleavedRelay

  /** Every registration is stored under its own key and was signed by that key. */
  ghost predicate Genuine(env: Env, regs: map<PublicKey, ValidatorRegistration>) {
    forall pk :: pk in regs
        ==> regs[pk].pubkey == pk && exists sig :: env.registrationSigned(SignedRegistration(regs[pk], sig))
  }

  ghost predicate AllRegistered(st: StorageState, duties: seq<ProposerDuty>) {
    forall d :: d in duties ==> d.pubkey in st.registrations
  }

  ghost predicate TaskRegistered(st: StorageState, task: Task) {
    match task
    case Unblinding(_, _, _, _, pc) => (
      match pc
      case AtUnblindRegistration(duty) => duty.pubkey in st.registrations
      case AtResponse(duty) => duty.pubkey in st.registrations
      case Unblinded(result) => result != Err(UnauthorizedSubmission)
      case _ => true
    )
    case Syncing(_, pc) => (
      match pc
      case Filtering(earlier, _, _, kept) =>
        AllRegistered(st, kept) && (earlier.Some? ==> AllRegistered(st, earlier.value))
      case AwaitNext(current) => AllRegistered(st, current)
      case AtCommit(duties) => AllRegistered(st, duties)
      case _ => true
    )
    case _ => true
  }

  ghost predicate Served(env: Env, s: System) {
    && Genuine(env, s.storage.registrations)
    && AllRegistered(s.storage, s.storage.duties)
    && forall t: nat :: t < |s.tasks| ==> TaskRegistered(s.storage, s.tasks[t])
  }

  lemma SyncStep(st: StorageState, epoch: U64, pc: SyncPc)
    requires TaskRegistered(st, Syncing(epoch, pc)) && AllRegistered(st, st.duties)
    ensures var (st', pc') := AdvanceSync(st, pc);
            && st'.registrations == st.registrations
            && AllRegistered(st', st'.duties)
            && TaskRegistered(st', Syncing(epoch, pc'))
  {
  }

  lemma RevealStep(env: Env, st: StorageState, task: Task)
    requires task.Unblinding? && TaskRegistered(st, task) && AllRegistered(st, st.duties)
    ensures var (st', pc') := AdvanceUnblind(env, st, task.slot, task.index, task.blockHash, task.signature,
                                             task.unblindPc);
            && st'.registrations == st.registrations && st'.duties == st.duties
            && TaskRegistered(st', task.(unblindPc := pc'))
  {
    if task.unblindPc.AtUnblindDuty? { FindDutyFindsFirst(st.duties, task.slot); }
  }

  lemma TaskStep(env: Env, s: System, t: nat)
    requires Served(env, s) && t < |s.tasks|
    ensures Served(env, AdvanceTask(env, s, t))
  {
    var s' := AdvanceTask(env, s, t);
    OthersStand(env, s, t);
    assert TaskRegistered(s.storage, s.tasks[t]);
    match s.tasks[t]
    case Bidding(_, _) =>
    case Retrieving(_, _, _, _) =>
    case Unblinding(_, _, _, _, _) => RevealStep(env, s.storage, s.tasks[t]);
    case Syncing(epoch, pc) => SyncStep(s.storage, epoch, pc);
    assert s'.storage.registrations == s.storage.registrations;
  }

  lemma ServedStep(env: Env, s: System, e: Event)
    requires Served(env, s)
    ensures Served(env, Step(env, s, e))
  {
    if e.Advance? && e.task < |s.tasks| {
      TaskStep(env, s, e.task);
    } else if e.RegisterValidator? && env.registrationSigned(e.registration) {
      var s' := Step(env, s, e);
      assert e.registration == SignedRegistration(e.registration.message, e.registration.signature);
      forall t: nat | t < |s'.tasks| ensures TaskRegistered(s'.storage, s'.tasks[t]) {
        assert TaskRegistered(s.storage, s.tasks[t]);
      }
    }
  }

  /** In every run every stored duty belongs to a registered proposer, every registration is stored
      under its own key with a verified signature, and no reveal that found a duty is ever turned
      away as unregistered. */
  lemma {:induction false} DutiesStayRegistered(env: Env, whitelist: seq<PublicKey>, events: seq<Event>)
    ensures var s := Run(env, Start(whitelist), events);
            && Genuine(env, s.storage.registrations)
            && AllRegistered(s.storage, s.storage.duties)
            && (forall t: nat :: t < |s.tasks| && s.tasks[t].Unblinding? && s.tasks[t].unblindPc.Unblinded?
                                 ==> s.tasks[t].unblindPc.result != Err(UnauthorizedSubmission))
            && Served(env, s)
  {
    if events != [] {
      var before := events[..|events| - 1];
      DutiesStayRegistered(env, whitelist, before);
      ServedStep(env, Run(env, Start(whitelist), before), events[|events| - 1]);
    }
    var s := Run(env, Start(whitelist), events);
    forall t: nat | t < |s.tasks| && s.tasks[t].Unblinding? && s.tasks[t].unblindPc.Unblinded?
      ensures s.tasks[t].unblindPc.result != Err(UnauthorizedSubmission)
    {
      assert TaskRegistered(s.storage, s.tasks[t]);
    }
  }

  /** The last registration of a key whose signature verified. */
  function LastVerified(env: Env, events: seq<Event>, pubkey: PublicKey): Option<ValidatorRegistration> {
    if events == [] then None
    else
      var last := events[|events| - 1];
      if && last.RegisterValidator? && env.registrationSigned(last.registration)
         && last.registration.message.pubkey == pubkey
      then Some(last.registration.message)
      else LastVerified(env, events[..|events| - 1], pubkey)
  }

  /** What is registered for a key is the last registration of it that verified, in every interleaving. */
  lemma {:induction false} LastRegistrationStands(env: Env, whitelist: seq<PublicKey>, events: seq<Event>,
                                                  pubkey: PublicKey)
    ensures var regs := Run(env, Start(whitelist), events).storage.registrations;
            var last := LastVerified(env, events, pubkey);
            && (pubkey in regs <==> last.Some?)
            && (last.Some? ==> regs[pubkey] == last.value)
  {
    if events != [] {
      var before, e := events[..|events| - 1], events[|events| - 1];
      LastRegistrationStands(env, whitelist, before, pubkey);
      OnlyRegisteringRegisters(env, Run(env, Start(whitelist), before), e);
    }
  }

  lemma OnlyRegisteringRegisters(env: Env, s: System, e: Event)
    ensures var regs := s.storage.registrations;
            Step(env, s, e).storage.registrations
            == if e.RegisterValidator? && env.registrationSigned(e.registration)
               then regs[e.registration.message.pubkey := e.registration.message] else regs
  {
  }
}
