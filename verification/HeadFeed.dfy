/** What a head event does to the relay (crates/app/src/relay_service.rs): on every event the head is
    recorded, whatever becomes of the duties, and from then on exactly the next slot is open. */
module HeadFeed {
  import opened Entities
  import opened Datastore
  import opened DutySync
  import opened DutyCoverage
  import opened UseCases
  import A = AtomicRelay

  /** The head is recorded on every event, and nothing but head and duties changes. */
  lemma HeadIsRecorded(st: StorageState, N: nat, head: U64,
                       current: Option<seq<ProposerDuty>>, next: Option<seq<ProposerDuty>>)
    requires N > 0
    ensures var st' := HandleHead(st, N, head, current, next);
            && st'.headSlot == head
            && st'.attributes == st.attributes && st'.registrations == st.registrations
            && st'.whitelist == st.whitelist && st'.blinded == st.blinded && st'.delivered == st.delivered
            && (st'.duties != st.duties ==> IsDutyRefreshSlot(head, N) && current.Some?)
  {
  }

  /** The head of the last head event, if there was one. */
  function LastHead(updates: seq<Update>): Option<U64> {
    if updates == [] then None
    else
      var n := |updates| - 1;
      if updates[n].HeadUpdate? then Some(updates[n].head) else LastHead(updates[..n])
  }

  /** Along every run the head is that of the last head event, whichever fetches failed. */
  lemma {:induction false} LastHeadStands(st: StorageState, N: nat, updates: seq<Update>)
    requires N > 0
    ensures var st' := Follow(st, N, updates);
            && st'.headSlot == (if LastHead(updates).Some? then LastHead(updates).value else st.headSlot)
            && st'.attributes == st.attributes && st'.whitelist == st.whitelist
            && st'.blinded == st.blinded && st'.delivered == st.delivered
  {
    if updates != [] {
      var n := |updates| - 1;
      LastHeadStands(st, N, updates[..n]);
      if updates[n].HeadUpdate? {
        HeadIsRecorded(Follow(st, N, updates[..n]), N, updates[n].head, updates[n].current, updates[n].next);
      }
    }
  }

  /** After a head event for h a bid by a listed builder is turned away for its slot exactly when that is
      not h+1. */
  lemma OnlyNextSlotIsOpen(env: Env, st: StorageState, best: BestBids, N: nat, h: U64,
                           current: Option<seq<ProposerDuty>>, next: Option<seq<ProposerDuty>>, bid: BidSubmission)
    requires N > 0 && h < U64_MAX
    ensures var st' := HandleHead(st, N, h, current, next);
            SubmitBid(env, st', best, bid).result == Err(InvalidSlot)
            <==> bid.message.value != 0 && bid.message.builderPubkey in st.whitelist && bid.message.slot != h + 1
    ensures var st' := HandleHead(st, N, h, current, next);
            SubmitBid(env, st', best, bid).result.Ok? ==> bid.message.slot == h + 1
  {
    HeadIsRecorded(st, N, h, current, next);
  }

  /** And a header is handed out for no slot but h+1. */
  lemma OnlyNextHeaderIsOpen(env: Env, st: StorageState, best: BestBids, N: nat, h: U64,
                             current: Option<seq<ProposerDuty>>, next: Option<seq<ProposerDuty>>,
                             slot: U64, parentHash: B256, pubkey: PublicKey)
    requires N > 0 && h < U64_MAX
    ensures var st' := HandleHead(st, N, h, current, next);
            var header := GetHeader(env, st', best, slot, parentHash, pubkey);
            && (header.Ok? ==> slot == h + 1)
            && (header == Err(InvalidSlot) ==> slot != h + 1)
  {
    HeadIsRecorded(st, N, h, current, next);
  }

  /** The calls a head event stands for in a run of the relay. */
  function CallsOf(N: nat, head: U64, current: Option<seq<ProposerDuty>>, next: Option<seq<ProposerDuty>>): seq<A.Call>
    requires N > 0
  {
    [A.HeadSeen(head)] + if IsDutyRefreshSlot(head, N) then [A.RefreshDuties(current, next)] else []
  }

  /** The relay's own runs see head events as they are handled. */
  lemma HeadEventIsCalls(env: Env, r: A.Relay, N: nat, head: U64,
                         current: Option<seq<ProposerDuty>>, next: Option<seq<ProposerDuty>>)
    requires N > 0
    ensures A.Play(env, r, CallsOf(N, head, current, next))
         == A.Relay(HandleHead(r.storage, N, head, current, next), r.best)
  {
    var calls := CallsOf(N, head, current, next);
    assert A.Play(env, r, []) == r;
    assert calls[..1] == [A.HeadSeen(head)] && [A.HeadSeen(head)][..0] == [];
    assert A.Play(env, r, [A.HeadSeen(head)]) == A.Apply(env, r, A.HeadSeen(head));
  }
}
