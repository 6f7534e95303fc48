/** The relay as it is put together (crates/app/src/lib.rs): the use cases' cryptography made of one
    compression function, keccak, and the signature scheme, and what the protocol's guarantee then says. */
module Wiring {
  import opened Entities
  import opened Datastore
  import opened MerkleTree
  import opened Ssz
  import opened HeaderSummary
  import opened SigningRoots
  import opened UseCases
  import opened AtomicRelay
  import G = Agreement
  import I = InterleavedRelay
  import R = Registrations
  import SerialRuns

  datatype Crypto = Crypto(
    hash: Hash,
    keccak: Keccak,
    verify: (PublicKey, seq<Byte>, Signature) -> bool,
    sign: seq<Byte> -> Signature)

  datatype ForkDatas = ForkDatas(builder: ForkData, proposer: ForkData)

  function EnvOf(c: Crypto, forks: ForkDatas): Env {
    var builderDomain := Domain(c.hash, BUILDER_DOMAIN, forks.builder);
    var proposerDomain := Domain(c.hash, PROPOSER_DOMAIN, forks.proposer);
    Env((bid: BidSubmission) =>
          c.verify(bid.message.builderPubkey, SigningRoot(c.hash, BidTraceRoot(c.hash, bid.message), builderDomain),
                   bid.signature),
        (reg: SignedRegistration) =>
          c.verify(reg.message.pubkey, SigningRoot(c.hash, RegistrationRoot(c.hash, reg.message), builderDomain),
                   reg.signature),
        (pubkey: PublicKey, slot: U64, index: U64, blockHash: B256, signature: Signature) =>
          c.verify(pubkey, BlindedBlockRoot(c.keccak, slot, index, blockHash, proposerDomain), signature),
        (txs: Transactions) => TransactionsRoot(c.hash, txs),
        (ws: Withdrawals) => WithdrawalsRoot(c.hash, ws),
        (header: ExecutionPayloadHeader) => c.sign(SigningRoot(c.hash, HeaderRoot(c.hash, header), builderDomain)))
  }

  /** Every bid the relay accepts, in every interleaving, carries a signature that verifies under the
      builder's key over the signing root of its trace in the builder domain.  So whatever trace the builder
      signed under that root is this trace, or an exhibited pair collides. */
  lemma AcceptedWasSigned(c: Crypto, forks: ForkDatas, whitelist: seq<PublicKey>, events: seq<I.Event>,
                          bid: BidSubmission, other: BidTrace)
    requires exists w :: w in G.Won(EnvOf(c, forks), I.Start(whitelist), events) && w.bid == bid
    ensures var domain := Domain(c.hash, BUILDER_DOMAIN, forks.builder);
            var root := SigningRoot(c.hash, BidTraceRoot(c.hash, bid.message), domain);
            && c.verify(bid.message.builderPubkey, root, bid.signature)
            && (SigningRoot(c.hash, BidTraceRoot(c.hash, other), domain) == root ==>
                 Bound(c.hash, other == bid.message,
                       Or(SigningClash(BidTraceRoot(c.hash, other), domain, BidTraceRoot(c.hash, bid.message), domain),
                          BidTraceClash(c.hash, other, bid.message))))
  {
    var env, domain := EnvOf(c, forks), Domain(c.hash, BUILDER_DOMAIN, forks.builder);
    G.WinnersAreSigned(env, whitelist, events);
    var w :| w in G.Won(env, I.Start(whitelist), events) && w.bid == bid;
    assert env.bidSigned(w.bid);
    if SigningRoot(c.hash, BidTraceRoot(c.hash, other), domain)
       == SigningRoot(c.hash, BidTraceRoot(c.hash, bid.message), domain) {
      BidSignatureBinds(c.hash, other, bid.message, domain);
    }
  }

  /** The same one call at a time. */
  lemma AcceptedCallWasSigned(c: Crypto, forks: ForkDatas, whitelist: seq<PublicKey>, calls: seq<Call>,
                              bid: BidSubmission)
    requires exists w :: w in Accepted(EnvOf(c, forks), Fresh(whitelist), calls) && w.bid == bid
    ensures c.verify(bid.message.builderPubkey,
                     SigningRoot(c.hash, BidTraceRoot(c.hash, bid.message),
                                 Domain(c.hash, BUILDER_DOMAIN, forks.builder)),
                     bid.signature)
  {
    var env := EnvOf(c, forks);
    AcceptedAreSigned(env, Fresh(whitelist), calls);
    var w :| w in Accepted(env, Fresh(whitelist), calls) && w.bid == bid;
    assert env.bidSigned(w.bid);
  }

  /** A bid is turned away for its signature exactly when it passes every guard before that and the
      signature does not verify. */
  lemma UnsignedIsRefusedExactly(c: Crypto, forks: ForkDatas, st: StorageState, best: BestBids, bid: BidSubmission)
    ensures SubmitBid(EnvOf(c, forks), st, best, bid).result == Err(InvalidBuilderSignature) <==>
              && bid.message.value != 0 && bid.message.builderPubkey in st.whitelist
              && NextSlot(st.headSlot) == bid.message.slot
              && st.attributes.prevRandao == bid.payload.prevRandao
              && FindDuty(st.duties, bid.message.slot).Some?
              && !c.verify(bid.message.builderPubkey,
                           SigningRoot(c.hash, BidTraceRoot(c.hash, bid.message),
                                       Domain(c.hash, BUILDER_DOMAIN, forks.builder)),
                           bid.signature)
  {
  }

  /** What is registered for a key, in every interleaving, is a registration of that key with a signature
      that verifies under it in the builder domain; whatever registration the key signed under that root is
      this one, or an exhibited pair collides. */
  lemma RegisteredWasSigned(c: Crypto, forks: ForkDatas, whitelist: seq<PublicKey>, events: seq<I.Event>,
                            pubkey: PublicKey, other: ValidatorRegistration)
    requires pubkey in I.Run(EnvOf(c, forks), I.Start(whitelist), events).storage.registrations
    ensures var reg := I.Run(EnvOf(c, forks), I.Start(whitelist), events).storage.registrations[pubkey];
            var domain := Domain(c.hash, BUILDER_DOMAIN, forks.builder);
            var root := SigningRoot(c.hash, RegistrationRoot(c.hash, reg), domain);
            && reg.pubkey == pubkey
            && (exists signature :: c.verify(pubkey, root, signature))
            && (SigningRoot(c.hash, RegistrationRoot(c.hash, other), domain) == root ==>
                 Bound(c.hash, other == reg,
                       Or(SigningClash(RegistrationRoot(c.hash, other), domain, RegistrationRoot(c.hash, reg), domain),
                          RegistrationClash(c.hash, other, reg))))
  {
    var env, domain := EnvOf(c, forks), Domain(c.hash, BUILDER_DOMAIN, forks.builder);
    R.DutiesStayRegistered(env, whitelist, events);
    var reg := I.Run(env, I.Start(whitelist), events).storage.registrations[pubkey];
    var signature :| env.registrationSigned(SignedRegistration(reg, signature));
    assert c.verify(pubkey, SigningRoot(c.hash, RegistrationRoot(c.hash, reg), domain), signature);
    if SigningRoot(c.hash, RegistrationRoot(c.hash, other), domain)
       == SigningRoot(c.hash, RegistrationRoot(c.hash, reg), domain) {
      RegistrationSignatureBinds(c.hash, other, reg, domain);
    }
  }

  /** The same one call at a time. */
  lemma RegisteredCallWasSigned(c: Crypto, forks: ForkDatas, whitelist: seq<PublicKey>, calls: seq<Call>,
                                pubkey: PublicKey)
    requires pubkey in Play(EnvOf(c, forks), Fresh(whitelist), calls).storage.registrations
    ensures var reg := Play(EnvOf(c, forks), Fresh(whitelist), calls).storage.registrations[pubkey];
            && reg.pubkey == pubkey
            && exists signature ::
                 c.verify(pubkey, SigningRoot(c.hash, RegistrationRoot(c.hash, reg),
                                              Domain(c.hash, BUILDER_DOMAIN, forks.builder)), signature)
  {
    var env := EnvOf(c, forks);
    var reg := Play(env, Fresh(whitelist), calls).storage.registrations[pubkey];
    var events := SerialRuns.EveryAtomicRunIsARun(env, whitelist, calls);
    RegisteredWasSigned(c, forks, whitelist, events, pubkey, reg);
  }

  /** And a registration changes the store exactly when its signature verifies. */
  lemma RegistrationDecides(c: Crypto, forks: ForkDatas, st: StorageState, reg: SignedRegistration)
    ensures Register(EnvOf(c, forks), st, reg)
         == if c.verify(reg.message.pubkey,
                        SigningRoot(c.hash, RegistrationRoot(c.hash, reg.message),
                                    Domain(c.hash, BUILDER_DOMAIN, forks.builder)), reg.signature)
            then st.(registrations := st.registrations[reg.message.pubkey := reg.message]) else st
  {
  }

  /** A reveal is turned away for its signature exactly when the slot has a duty of that index, of a
      registered proposer, and the signature does not verify under that proposer's key over slot, index and
      block hash in the proposer domain; so no reveal succeeds without one that does. */
  lemma UnsignedRevealIsRefusedExactly(c: Crypto, forks: ForkDatas, st: StorageState, slot: U64, index: U64,
                                       blockHash: B256, signature: Signature)
    ensures var duty := FindDuty(st.duties, slot);
            var out := Unblind(EnvOf(c, forks), st, slot, index, blockHash, signature);
            var root := BlindedBlockRoot(c.keccak, slot, index, blockHash,
                                         Domain(c.hash, PROPOSER_DOMAIN, forks.proposer));
            && (out == Err(InvalidValidatorSignature) <==>
                  && duty.Some? && duty.value.validatorIndex == index && duty.value.pubkey in st.registrations
                  && !c.verify(duty.value.pubkey, root, signature))
            && (out.Ok? ==> duty.Some? && c.verify(duty.value.pubkey, root, signature))
  {
  }

  lemma HandedOutIsSigned(env: Env, r: Relay, slot: U64, parentHash: B256, pubkey: PublicKey)
    requires GetHeader(env, r.storage, r.best, slot, parentHash, pubkey).Ok?
    ensures var signed := GetHeader(env, r.storage, r.best, slot, parentHash, pubkey).value;
            signed.signature == env.sign(signed.message)
  {
  }

  lemma RevealedIsSigned(c: Crypto, forks: ForkDatas, env: Env, header: ExecutionPayloadHeader,
                         revealed: ExecutionPayload, other: ExecutionPayload)
    requires env == EnvOf(c, forks) && BuildHeader(env, revealed) == header
    ensures env.sign(header)
         == c.sign(SigningRoot(c.hash, PayloadRoot(c.hash, revealed), Domain(c.hash, BUILDER_DOMAIN, forks.builder)))
    ensures HeaderRoot(c.hash, BuildHeader(env, other)) == HeaderRoot(c.hash, header) ==>
              Bound(c.hash, other == revealed, PayloadClash(env, c.hash, other, revealed))
  {
    HeaderIsSummary(env, c.hash, revealed);
    if HeaderRoot(c.hash, BuildHeader(env, other)) == HeaderRoot(c.hash, header) {
      HeaderCommitsToPayload(env, c.hash, other, revealed);
    }
  }

  /** End to end.  The relay signs a header for a slot; later, when it has accepted no further bid for the
      proposer, the proposer's verifying signature over the header's block hash obtains a payload.  That
      payload has the very root the relay signed, and any other payload whose header has that root
      exhibits a collision of the hash. */
  lemma SignedRootIsRedeemed(c: Crypto, forks: ForkDatas, env: Env, whitelist: seq<PublicKey>, before: seq<Call>,
                             after: seq<Call>, rota: U64 -> PublicKey, slot: U64, parentHash: B256,
                             pubkey: PublicKey, signature: Signature,
                             other: ExecutionPayload)
    requires env == EnvOf(c, forks)
    requires RefreshesFollow(rota, before + after)
    requires HeadNeverDecreases(env, Fresh(whitelist), before)
    requires var r := Play(env, Fresh(whitelist), before);
             GetHeader(env, r.storage, r.best, slot, parentHash, pubkey).Ok?
    requires NoneAcceptedFor(env, Play(env, Fresh(whitelist), before), after, pubkey)
    requires FindDuty(Play(env, Fresh(whitelist), before + after).storage.duties, slot).Some?
    ensures var r, r' := Play(env, Fresh(whitelist), before), Play(env, Fresh(whitelist), before + after);
            var signed := GetHeader(env, r.storage, r.best, slot, parentHash, pubkey).value;
            var index := FindDuty(r'.storage.duties, slot).value.validatorIndex;
            var proposerDomain := Domain(c.hash, PROPOSER_DOMAIN, forks.proposer);
            c.verify(pubkey, BlindedBlockRoot(c.keccak, slot, index, signed.message.blockHash, proposerDomain),
                     signature) ==>
              var out := Unblind(env, r'.storage, slot, index, signed.message.blockHash, signature);
              && out.Ok? && out.value.blobs == Some(r.best[slot].blobs)
              && signed.signature == c.sign(SigningRoot(c.hash, PayloadRoot(c.hash, out.value.payload),
                                                        Domain(c.hash, BUILDER_DOMAIN, forks.builder)))
              && (HeaderRoot(c.hash, BuildHeader(env, other)) == HeaderRoot(c.hash, signed.message)
                  ==> Bound(c.hash, other == out.value.payload, PayloadClash(env, c.hash, other, out.value.payload)))
  {
    var r, r' := Play(env, Fresh(whitelist), before), Play(env, Fresh(whitelist), before + after);
    var header := GetHeader(env, r.storage, r.best, slot, parentHash, pubkey).value.message;
    var index := FindDuty(r'.storage.duties, slot).value.validatorIndex;
    CommitThenReveal(env, whitelist, before, after, rota, slot, parentHash, pubkey, signature);
    HandedOutIsSigned(env, r, slot, parentHash, pubkey);
    if env.revealSigned(pubkey, slot, index, header.blockHash, signature) {
      var out := Unblind(env, r'.storage, slot, index, header.blockHash, signature);
      RevealedIsSigned(c, forks, env, header, out.value.payload, other);
    }
  }
}
