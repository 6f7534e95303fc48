/** The two shared stores (crates/datastore): `MemoryStorage`, one lock over seven fields, and
    `MemoryAuctioneer`, a cache of the best bid of each slot.  Every method is one critical section. */
module Datastore {
  import opened Entities

  datatype StorageState = StorageState(
    headSlot: U64,
    attributes: PayloadAttributes,
    registrations: map<PublicKey, ValidatorRegistration>,
    duties: seq<ProposerDuty>,
    whitelist: seq<PublicKey>,
    blinded: map<PublicKey, BlindedBlockResponse>,
    delivered: seq<B256>)

  function EmptyStorage(whitelist: seq<PublicKey>): StorageState {
    StorageState(0, PayloadAttributes(0, seq(32, i => 0), seq(20, i => 0)), map[], [], whitelist, map[], [])
  }

  /** The first listed duty of a slot. */
  function FindDuty(duties: seq<ProposerDuty>, slot: U64): Option<ProposerDuty> {
    if duties == [] then None
    else if duties[0].slot == slot then Some(duties[0])
    else FindDuty(duties[1..], slot)
  }

  /** Nothing is found exactly when no duty names the slot; otherwise the first that does is. */
  lemma {:induction false} FindDutyFindsFirst(duties: seq<ProposerDuty>, slot: U64)
    ensures FindDuty(duties, slot).None? <==> forall i :: 0 <= i < |duties| ==> duties[i].slot != slot
    ensures forall i :: 0 <= i < |duties| && duties[i].slot == slot ==>
              (forall j :: 0 <= j < i ==> duties[j].slot != slot) ==> FindDuty(duties, slot) == Some(duties[i])
    ensures FindDuty(duties, slot).Some? ==>
              FindDuty(duties, slot).value in duties && FindDuty(duties, slot).value.slot == slot
  {
    if duties != [] && duties[0].slot != slot {
      var rest := duties[1..];
      FindDutyFindsFirst(rest, slot);
      forall i | 0 <= i < |duties| && duties[i].slot == slot && (forall j :: 0 <= j < i ==> duties[j].slot != slot)
        ensures FindDuty(duties, slot) == Some(duties[i])
      {
        assert rest[i - 1] == duties[i];
      }
      if forall i :: 0 <= i < |rest| ==> rest[i].slot != slot {
        forall i | 0 <= i < |duties| ensures duties[i].slot != slot {
          if i > 0 { assert rest[i - 1] == duties[i]; }
        }
      }
    }
  }

  /** A lookup in a concatenation prefers the first part. */
  lemma {:induction false} FindDutyConcat(a: seq<ProposerDuty>, b: seq<ProposerDuty>, slot: U64)
    ensures FindDuty(a + b, slot) == if FindDuty(a, slot).Some? then FindDuty(a, slot) else FindDuty(b, slot)
  {
    if a == [] {
      assert a + b == b;
    } else {
      assert (a + b)[1..] == a[1..] + b;
      FindDutyConcat(a[1..], b, slot);
    }
  }

  class MemoryStorage {
    var headSlot: U64
    var attributes: PayloadAttributes
    var registrations: map<PublicKey, ValidatorRegistration>
    var duties: seq<ProposerDuty>
    var whitelist: seq<PublicKey>
    var blinded: map<PublicKey, BlindedBlockResponse>
    var delivered: seq<B256>

    ghost function State(): StorageState
      reads this
    {
      StorageState(headSlot, attributes, registrations, duties, whitelist, blinded, delivered)
    }

    constructor (builders: seq<PublicKey>)
      ensures State() == EmptyStorage(builders)
    {
      headSlot := 0;
      attributes := PayloadAttributes(0, seq(32, i => 0), seq(20, i => 0));
      registrations, duties, whitelist := map[], [], builders;
      blinded, delivered := map[], [];
    }

    method SetHeadSlot(slot: U64)
      modifies this
      ensures State() == old(State()).(headSlot := slot)
    {
      headSlot := slot;
    }

    method ReadHeadSlot() returns (slot: U64)
      ensures slot == State().headSlot
    {
      slot := headSlot;
    }

    method SetPayloadAttributes(attrs: PayloadAttributes)
      modifies this
      ensures State() == old(State()).(attributes := attrs)
    {
      attributes := attrs;
    }

    method ReadPayloadAttributes() returns (attrs: PayloadAttributes)
      ensures attrs == State().attributes
    {
      attrs := attributes;
    }

    method SetValidatorRegistration(key: PublicKey, reg: ValidatorRegistration)
      modifies this
      ensures State() == old(State()).(registrations := old(registrations)[key := reg])
    {
      registrations := registrations[key := reg];
    }

    method ReadValidatorRegistration(key: PublicKey) returns (r: Option<ValidatorRegistration>)
      ensures r == if key in State().registrations then Some(State().registrations[key]) else None
    {
      if key in registrations {
        r := Some(registrations[key]);
      } else {
        r := None;
      }
    }

    method EmptyValidatorRegs() returns (r: bool)
      ensures r <==> State().registrations == map[]
    {
      r := registrations == map[];
    }

    method IsWhitelistedBuilder(key: PublicKey) returns (r: bool)
      ensures r <==> key in State().whitelist
    {
      r := key in whitelist;
    }

    method SetProposerDuties(list: seq<ProposerDuty>)
      modifies this
      ensures State() == old(State()).(duties := list)
    {
      duties := list;
    }

    method FindDutyBySlot(slot: U64) returns (r: Option<ProposerDuty>)
      ensures r == FindDuty(State().duties, slot)
    {
      assert duties[0..] == duties;
      for i := 0 to |duties|
        invariant FindDuty(duties, slot) == FindDuty(duties[i..], slot)
      {
        if duties[i].slot == slot { return Some(duties[i]); }
        assert duties[i..][1..] == duties[i + 1..];
      }
      r := None;
    }

    method SetBlindedBlockResponse(proposer: PublicKey, resp: BlindedBlockResponse)
      modifies this
      ensures State() == old(State()).(blinded := old(blinded)[proposer := resp])
    {
      blinded := blinded[proposer := resp];
    }

    method ReadBlindedBlockResponse(proposer: PublicKey) returns (r: Option<BlindedBlockResponse>)
      ensures r == if proposer in State().blinded then Some(State().blinded[proposer]) else None
    {
      if proposer in blinded {
        r := Some(blinded[proposer]);
      } else {
        r := None;
      }
    }

    method SetDeliveredBlocks(blockHash: B256)
      modifies this
      ensures State() == old(State()).(delivered := old(delivered) + [blockHash])
    {
      delivered := delivered + [blockHash];
    }
  }

  /** Best bid of each slot, forgetting which allocation holds it. */
  type BestBids = map<U64, BidSubmission>

  predicate Beats(best: BestBids, slot: U64, bid: BidSubmission) {
    slot in best ==> bid.message.value > best[slot].message.value
  }

  /** A bid offered from its own allocation: kept exactly when the slot is vacant or it beats the holder. */
  function Offer(best: BestBids, slot: U64, bid: BidSubmission): BestBids {
    if Beats(best, slot, bid) then best[slot := bid] else best
  }

  /** `Arc<BidSubmission>`: two shared bids are the same only when they are the same object. */
  class SharedBid {
    const bid: BidSubmission

    constructor (b: BidSubmission)
      ensures bid == b
    {
      bid := b;
    }
  }

  class MemoryAuctioneer {
    var cache: map<U64, SharedBid>

    ghost function Best(): BestBids
      reads this
    {
      map s | s in cache :: cache[s].bid
    }

    constructor ()
      ensures cache == map[] && Best() == map[]
    {
      cache := map[];
    }

    /** One atomic compare-and-replace.  The call succeeds exactly when the slot then holds this very
        object, so offering the current holder again succeeds without changing anything. */
    method CompareAndBid(slot: U64, arc: SharedBid) returns (r: Result<(), RelayError>)
      modifies this
      ensures Best() == Offer(old(Best()), slot, arc.bid)
      ensures cache == if Beats(old(Best()), slot, arc.bid) then old(cache)[slot := arc] else old(cache)
      ensures r.Ok? <==> Beats(old(Best()), slot, arc.bid) || old(cache)[slot] == arc
      ensures r.Err? ==> r == Err(BidValueNotHighEnough(arc.bid.message.value, old(Best())[slot].message.value))
    {
      if slot !in cache || arc.bid.message.value > cache[slot].bid.message.value {
        cache := cache[slot := arc];
      }
      var entry := cache[slot];
      if entry != arc {
        r := Err(BidValueNotHighEnough(arc.bid.message.value, entry.bid.message.value));
      } else {
        r := Ok(());
      }
    }

    method GetBestBid(slot: U64) returns (r: Result<BidSubmission, RelayError>)
      ensures r == if slot in Best() then Ok(Best()[slot]) else Err(BidNotFound(slot))
    {
      if slot in cache {
        r := Ok(cache[slot].bid);
      } else {
        r := Err(BidNotFound(slot));
      }
    }
  }
}
