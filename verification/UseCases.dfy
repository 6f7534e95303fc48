/** The four use cases (crates/usecase) as uninterrupted calls: first what each call decides, as a
    function of the two stores, then the classes that run it on the shared objects. */
module UseCases {
  import opened Entities
  import opened Datastore

  /** The guards of a bid in the source's order; `Ok` carries the duty the bid is for. */
  function Screen(env: Env, st: StorageState, bid: BidSubmission): Result<ProposerDuty, RelayError> {
    if bid.message.value == 0 then Err(ZeroBid)
    else if bid.message.builderPubkey !in st.whitelist then Err(UnauthorizedBuilder)
    else if NextSlot(st.headSlot) != bid.message.slot then Err(InvalidSlot)
    else if st.attributes.prevRandao != bid.payload.prevRandao then Err(InvalidPayloadAttributes)
    else
      var duty := FindDuty(st.duties, bid.message.slot);
      if duty.None? then Err(DutyNotFound)
      else if !env.bidSigned(bid) then Err(InvalidBuilderSignature)
      else Ok(duty.value)
  }

  predicate Accepts(env: Env, st: StorageState, best: BestBids, bid: BidSubmission) {
    Screen(env, st, bid).Ok? && Beats(best, bid.message.slot, bid)
  }

  datatype Submitted = Submitted(result: Result<(), RelayError>, storage: StorageState, best: BestBids)

  function SubmitBid(env: Env, st: StorageState, best: BestBids, bid: BidSubmission): Submitted {
    var slot := bid.message.slot;
    var duty := Screen(env, st, bid);
    if duty.Err? then Submitted(Err(duty.error), st, best)
    else if !Beats(best, slot, bid) then
      Submitted(Err(BidValueNotHighEnough(bid.message.value, best[slot].message.value)), st, best)
    else
      Submitted(Ok(()), st.(blinded := st.blinded[duty.value.pubkey := bid.ToResponse()]), best[slot := bid])
  }

  function GetHeader(env: Env, st: StorageState, best: BestBids, slot: U64, parentHash: B256, pubkey: PublicKey)
    : Result<SignedHeader, RelayError>
  {
    var duty := FindDuty(st.duties, slot);
    if pubkey !in st.registrations then Err(UnauthorizedGetHeader)
    else if duty.None? then Err(DutyNotFound)
    else if duty.value.pubkey != pubkey then Err(UnauthorizedGetHeader)
    else if NextSlot(st.headSlot) != slot then Err(InvalidSlot)
    else if slot !in best then Err(BidNotFound(slot))
    else if best[slot].message.parentHash != parentHash then Err(NoBidFound)
    else Ok(SignBid(env, best[slot]))
  }

  function SignBid(env: Env, bid: BidSubmission): SignedHeader {
    var header := BuildHeader(env, bid.payload);
    SignedHeader(header, env.sign(header))
  }

  /** The parent asked for is compared with the bid's trace, and the header carries the payload's: it is of
      that parent exactly when trace and payload name the same one.  With the block hash it is alike. */
  lemma HeaderIsAsAskedExactly(env: Env, st: StorageState, best: BestBids, slot: U64,
                               parentHash: B256, pubkey: PublicKey)
    requires GetHeader(env, st, best, slot, parentHash, pubkey).Ok?
    ensures var bid, header := best[slot], GetHeader(env, st, best, slot, parentHash, pubkey).value.message;
            && (header.parentHash == parentHash <==> bid.payload.parentHash == bid.message.parentHash)
            && (header.blockHash == bid.message.blockHash <==> bid.payload.blockHash == bid.message.blockHash)
  {
  }

  function Unblind(env: Env, st: StorageState, slot: U64, index: U64, blockHash: B256, signature: Signature)
    : Result<BlindedBlockResponse, RelayError>
  {
    var duty := FindDuty(st.duties, slot);
    if duty.None? then Err(DutyNotFound)
    else if duty.value.validatorIndex != index then Err(ProposerIndexMismatch(duty.value.validatorIndex, index))
    else
      var pubkey := duty.value.pubkey;
      if pubkey !in st.registrations then Err(UnauthorizedSubmission)
      else if !env.revealSigned(pubkey, slot, index, blockHash, signature) then Err(InvalidValidatorSignature)
      else if pubkey !in st.blinded then Err(NoBlindedBlockResponse)
      else if st.blinded[pubkey].payload.blockHash != blockHash then Err(BlockHashMismatch)
      else Ok(st.blinded[pubkey])
  }

  function Register(env: Env, st: StorageState, reg: SignedRegistration): StorageState {
    if !env.registrationSigned(reg) then st
    else st.(registrations := st.registrations[reg.message.pubkey := reg.message])
  }

  class SubmitBidUseCase {
    const storage: MemoryStorage
    const auctioneer: MemoryAuctioneer
    const env: Env

    constructor (storage: MemoryStorage, auctioneer: MemoryAuctioneer, env: Env)
      ensures this.storage == storage && this.auctioneer == auctioneer && this.env == env
    {
      this.storage, this.auctioneer, this.env := storage, auctioneer, env;
    }

    /** Leaves both stores as SubmitBid says.  The bid is shared from a new allocation, so pointer
        equality with the cached entry means exactly that this bid went in. */
    method Execute(bid: BidSubmission) returns (r: Result<(), RelayError>)
      modifies storage, auctioneer
      ensures Submitted(r, storage.State(), auctioneer.Best())
           == SubmitBid(env, old(storage.State()), old(auctioneer.Best()), bid)
    {
      var slot, builder, value := bid.message.slot, bid.message.builderPubkey, bid.message.value;
      if value == 0 { return Err(ZeroBid); }
      var listed := storage.IsWhitelistedBuilder(builder);
      if !listed { return Err(UnauthorizedBuilder); }
      var head := storage.ReadHeadSlot();
      if NextSlot(head) != slot { return Err(InvalidSlot); }
      var attrs := storage.ReadPayloadAttributes();
      if attrs.prevRandao != bid.payload.prevRandao { return Err(InvalidPayloadAttributes); }
      var duty := storage.FindDutyBySlot(slot);
      if duty.None? { return Err(DutyNotFound); }
      if !env.bidSigned(bid) { return Err(InvalidBuilderSignature); }
      var arc := new SharedBid(bid);
      var offered := auctioneer.CompareAndBid(slot, arc);
      if offered.Err? { return Err(offered.error); }
      storage.SetBlindedBlockResponse(duty.value.pubkey, arc.bid.ToResponse());
      r := Ok(());
    }
  }

  class GetHeaderUseCase {
    const storage: MemoryStorage
    const auctioneer: MemoryAuctioneer
    const env: Env
    const forkName: ForkName

    constructor (storage: MemoryStorage, auctioneer: MemoryAuctioneer, env: Env, forkName: ForkName)
      ensures this.storage == storage && this.auctioneer == auctioneer && this.env == env && this.forkName == forkName
    {
      this.storage, this.auctioneer, this.env, this.forkName := storage, auctioneer, env, forkName;
    }

    /** Reads only.  A header comes marked with the signer's fork. */
    method Execute(slot: U64, parentHash: B256, pubkey: PublicKey)
      returns (r: Result<Versioned<SignedHeader>, RelayError>)
      ensures var header := GetHeader(env, storage.State(), auctioneer.Best(), slot, parentHash, pubkey);
              r == if header.Ok? then Ok(Versioned(forkName, header.value)) else Err(header.error)
    {
      var registration := storage.ReadValidatorRegistration(pubkey);
      if registration.None? { return Err(UnauthorizedGetHeader); }
      var duty := storage.FindDutyBySlot(slot);
      if duty.None? { return Err(DutyNotFound); }
      if duty.value.pubkey != pubkey { return Err(UnauthorizedGetHeader); }
      var head := storage.ReadHeadSlot();
      if NextSlot(head) != slot { return Err(InvalidSlot); }
      var best := auctioneer.GetBestBid(slot);
      if best.Err? { return Err(best.error); }
      if best.value.message.parentHash != parentHash { return Err(NoBidFound); }
      r := Ok(Versioned(forkName, SignBid(env, best.value)));
    }
  }

  class UnblindBlockUseCase {
    const storage: MemoryStorage
    const env: Env

    constructor (storage: MemoryStorage, env: Env)
      ensures this.storage == storage && this.env == env
    {
      this.storage, this.env := storage, env;
    }

    /** Answers as Unblind says; a success, and only a success, is recorded as delivered. */
    method Execute(slot: U64, index: U64, blockHash: B256, signature: Signature)
      returns (r: Result<BlindedBlockResponse, RelayError>)
      modifies storage
      ensures r == Unblind(env, old(storage.State()), slot, index, blockHash, signature)
      ensures storage.State() == old(storage.State()).(delivered :=
                old(storage.delivered) + if r.Ok? then [blockHash] else [])
    {
      var duty := storage.FindDutyBySlot(slot);
      if duty.None? { return Err(DutyNotFound); }
      if duty.value.validatorIndex != index { return Err(ProposerIndexMismatch(duty.value.validatorIndex, index)); }
      var pubkey := duty.value.pubkey;
      var registration := storage.ReadValidatorRegistration(pubkey);
      if registration.None? { return Err(UnauthorizedSubmission); }
      if !env.revealSigned(pubkey, slot, index, blockHash, signature) { return Err(InvalidValidatorSignature); }
      var resp := storage.ReadBlindedBlockResponse(pubkey);
      if resp.None? { return Err(NoBlindedBlockResponse); }
      if resp.value.payload.blockHash != blockHash { return Err(BlockHashMismatch); }
      storage.SetDeliveredBlocks(blockHash);
      r := Ok(resp.value);
    }
  }

  class RegisterValidatorUseCase {
    const storage: MemoryStorage
    const env: Env

    constructor (storage: MemoryStorage, env: Env)
      ensures this.storage == storage && this.env == env
    {
      this.storage, this.env := storage, env;
    }

    method Execute(registration: SignedRegistration) returns (r: Result<(), RelayError>)
      modifies storage
      ensures storage.State() == Register(env, old(storage.State()), registration)
      ensures r == if env.registrationSigned(registration) then Ok(()) else Err(InvalidValidatorSignature)
    {
      var pubkey := registration.message.pubkey;
      if !env.registrationSigned(registration) { return Err(InvalidValidatorSignature); }
      storage.SetValidatorRegistration(pubkey, registration.message);
      r := Ok(());
    }
  }
}
