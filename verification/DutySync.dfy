/** Head events and the duty refresh (crates/entity/src/head_slot.rs, crates/app/src/relay_service.rs).
    The beacon node's answers are parameters; None is a failed fetch. */
module DutySync {
  import opened Entities
  import opened Datastore

  function Epoch(slot: U64, slotsPerEpoch: nat): U64
    requires slotsPerEpoch > 0
  {
    slot / slotsPerEpoch
  }

  predicate IsDutyRefreshSlot(slot: U64, slotsPerEpoch: nat)
    requires slotsPerEpoch > 0
  {
    slot % slotsPerEpoch == 1
  }

  /** The duties whose proposer is registered, in order. */
  function FilterDuties(regs: map<PublicKey, ValidatorRegistration>, duties: seq<ProposerDuty>): seq<ProposerDuty> {
    if duties == [] then []
    else (if duties[0].pubkey in regs then [duties[0]] else []) + FilterDuties(regs, duties[1..])
  }

  function SyncedDuties(st: StorageState, current: Option<seq<ProposerDuty>>,
                        next: Option<seq<ProposerDuty>>): StorageState
  {
    if current.None? then st
    else st.(duties := FilterDuties(st.registrations, current.value)
                       + if next.None? then [] else FilterDuties(st.registrations, next.value))
  }

  /** A head event: the slot is recorded, and on the refresh slot of an epoch the duties of that epoch
      and of the next are fetched, filtered and stored together. */
  function HandleHead(st: StorageState, slotsPerEpoch: nat, head: U64, current: Option<seq<ProposerDuty>>,
                      next: Option<seq<ProposerDuty>>): StorageState
    requires slotsPerEpoch > 0
  {
    var st' := st.(headSlot := head);
    if IsDutyRefreshSlot(head, slotsPerEpoch) then SyncedDuties(st', current, next) else st'
  }

  lemma {:induction false} FilterKeepsRegistered(regs: map<PublicKey, ValidatorRegistration>, duties: seq<ProposerDuty>)
    ensures forall d :: d in FilterDuties(regs, duties) <==> d in duties && d.pubkey in regs
  {
    if duties != [] {
      FilterKeepsRegistered(regs, duties[1..]);
      assert duties == [duties[0]] + duties[1..];
    }
  }

  lemma {:induction false} NobodyRegistered(duties: seq<ProposerDuty>)
    ensures FilterDuties(map[], duties) == []
  {
    if duties != [] { NobodyRegistered(duties[1..]); }
  }

  class RelayService {
    const storage: MemoryStorage
    const slotsPerEpoch: nat

    constructor (storage: MemoryStorage, slotsPerEpoch: nat)
      requires slotsPerEpoch > 0
      ensures this.storage == storage && this.slotsPerEpoch == slotsPerEpoch
    {
      this.storage, this.slotsPerEpoch := storage, slotsPerEpoch;
    }

    method KeepRegistered(duties: seq<ProposerDuty>) returns (kept: seq<ProposerDuty>)
      ensures kept == FilterDuties(storage.registrations, duties)
    {
      var empty := storage.EmptyValidatorRegs();
      if empty {
        NobodyRegistered(duties);
        return [];
      }
      kept := [];
      assert duties[0..] == duties;
      for i := 0 to |duties|
        invariant FilterDuties(storage.registrations, duties) == kept + FilterDuties(storage.registrations, duties[i..])
      {
        assert duties[i..][1..] == duties[i + 1..];
        var registration := storage.ReadValidatorRegistration(duties[i].pubkey);
        if registration.Some? { kept := kept + [duties[i]]; }
      }
    }

    method SyncDuties(current: Option<seq<ProposerDuty>>, next: Option<seq<ProposerDuty>>) returns (synced: bool)
      modifies storage
      ensures storage.State() == SyncedDuties(old(storage.State()), current, next)
      ensures synced <==> current.Some?
    {
      if current.None? { return false; }
      var filtered := KeepRegistered(current.value);
      if next.Some? {
        var nextFiltered := KeepRegistered(next.value);
        storage.SetProposerDuties(filtered + nextFiltered);
      } else {
        storage.SetProposerDuties(filtered);
      }
      synced := true;
    }

    /** The values arrive as text; None is a text that does not parse, and then nothing is recorded. */
    method HandlePayloadAttributesEvent(timestamp: U64, prevRandao: Option<B256>, feeRecipient: Option<Address>)
      modifies storage
      ensures prevRandao.None? || feeRecipient.None? ==> storage.State() == old(storage.State())
      ensures prevRandao.Some? && feeRecipient.Some? ==>
                storage.State() == old(storage.State()).(attributes :=
                  PayloadAttributes(timestamp, prevRandao.value, feeRecipient.value))
    {
      if prevRandao.None? { return; }
      if feeRecipient.None? { return; }
      storage.SetPayloadAttributes(PayloadAttributes(timestamp, prevRandao.value, feeRecipient.value));
    }

    method HandleHeadEvent(head: U64, current: Option<seq<ProposerDuty>>, next: Option<seq<ProposerDuty>>)
      requires slotsPerEpoch > 0
      modifies storage
      ensures storage.State() == HandleHead(old(storage.State()), slotsPerEpoch, head, current, next)
    {
      storage.SetHeadSlot(head);
      if IsDutyRefreshSlot(head, slotsPerEpoch) {
        var synced := SyncDuties(current, next);
      }
    }
  }
}
