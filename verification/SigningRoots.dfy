/** What signatures are over: the proposer's blinded-block root, the domains, and the SSZ signing roots
    (crates/usecase/src/unblind_block.rs, crates/crypto/src/fork.rs; Ethereum consensus-specs,
    phase0/beacon-chain.md, section "compute_domain"). */
module SigningRoots {
  import opened Entities
  import opened MerkleTree
  import opened Ssz

  type Version = s: seq<Byte> | |s| == 4 witness seq(4, i => 0)

  type Keccak = seq<Byte> -> B256

  datatype KeccakClash = KeccakClash(left: seq<Byte>, right: seq<Byte>)

  predicate GenuineKeccak(keccak: Keccak, c: KeccakClash) {
    c.left != c.right && keccak(c.left) == keccak(c.right)
  }

  /** Slot, proposer index and block hash, in 8 + 8 + 32 bytes. */
  function BlockPreimage(slot: U64, index: U64, blockHash: B256): seq<Byte> {
    LittleEndian(slot, 8) + LittleEndian(index, 8) + blockHash
  }

  function BlindedBlockRoot(keccak: Keccak, slot: U64, index: U64, blockHash: B256, domain: B256): B256 {
    keccak(keccak(BlockPreimage(slot, index, blockHash)) + domain)
  }

  /** `blinded_block_signing_root` as it extends its buffers. */
  method BlindedBlockSigningRoot(keccak: Keccak, slot: U64, index: U64, blockHash: B256, domain: B256)
    returns (root: B256)
    ensures root == BlindedBlockRoot(keccak, slot, index, blockHash, domain)
  {
    var data: seq<Byte> := [];
    data := data + LittleEndian(slot, 8);
    data := data + LittleEndian(index, 8);
    data := data + blockHash;
    assert data == BlockPreimage(slot, index, blockHash);
    var message := keccak(data);
    message := message + domain;
    root := keccak(message);
  }

  /** Eight bytes that stand for the slot, eight that stand for the proposer's index, the block hash. */
  lemma PreimageLayout(slot: U64, index: U64, blockHash: B256)
    ensures var p := BlockPreimage(slot, index, blockHash);
            |p| == 48 && Sum(p[..8], 8) == slot && Sum(p[8..16], 8) == index && p[16..] == blockHash
  {
    var p := BlockPreimage(slot, index, blockHash);
    assert p[..8] == LittleEndian(slot, 8) && p[8..16] == LittleEndian(index, 8) && p[16..] == blockHash;
    Widths();
    LittleEndianValue(slot, 8);
    LittleEndianValue(index, 8);
  }

  lemma PreimageInjective(slot: U64, index: U64, blockHash: B256, slot': U64, index': U64, blockHash': B256)
    requires BlockPreimage(slot, index, blockHash) == BlockPreimage(slot', index', blockHash')
    ensures slot == slot' && index == index' && blockHash == blockHash'
  {
    var a, b := BlockPreimage(slot, index, blockHash), BlockPreimage(slot', index', blockHash');
    assert a[..8] == LittleEndian(slot, 8) && b[..8] == LittleEndian(slot', 8);
    assert a[8..16] == LittleEndian(index, 8) && b[8..16] == LittleEndian(index', 8);
    assert a[16..] == blockHash && b[16..] == blockHash';
    Widths();
    LittleEndianInjective(slot, slot', 8);
    LittleEndianInjective(index, index', 8);
  }

  /** For all slots and indexes, equal blinded-block roots mean the same slot, proposer index, block hash
      and domain, or else one of two named pairs of byte strings collides under keccak. */
  lemma BlindedBlockRootBinds(keccak: Keccak, slot: U64, index: U64, blockHash: B256, domain: B256,
                              slot': U64, index': U64, blockHash': B256, domain': B256)
    requires BlindedBlockRoot(keccak, slot, index, blockHash, domain)
             == BlindedBlockRoot(keccak, slot', index', blockHash', domain')
    ensures var inner, inner' := BlockPreimage(slot, index, blockHash), BlockPreimage(slot', index', blockHash');
            || (slot == slot' && index == index' && blockHash == blockHash' && domain == domain')
            || GenuineKeccak(keccak, KeccakClash(inner, inner'))
            || GenuineKeccak(keccak, KeccakClash(keccak(inner) + domain, keccak(inner') + domain'))
  {
    var inner, inner' := BlockPreimage(slot, index, blockHash), BlockPreimage(slot', index', blockHash');
    var outer, outer' := keccak(inner) + domain, keccak(inner') + domain';
    if outer == outer' {
      assert outer[..32] == keccak(inner) && outer'[..32] == keccak(inner');
      assert outer[32..] == domain && outer'[32..] == domain';
      if inner == inner' { PreimageInjective(slot, index, blockHash, slot', index', blockHash'); }
    }
  }

  datatype ForkData = ForkData(currentVersion: Version, genesisValidatorsRoot: B256)

  function ForkDataRoot(hash: Hash, f: ForkData): B256 {
    hash(Pad(f.currentVersion), f.genesisValidatorsRoot)
  }

  const BUILDER_DOMAIN: seq<Byte> := [0, 0, 0, 1]
  const PROPOSER_DOMAIN: seq<Byte> := [0, 0, 0, 0]

  function Domain(hash: Hash, kind: seq<Byte>, f: ForkData): B256
    requires |kind| == 4
  {
    kind + ForkDataRoot(hash, f)[..28]
  }

  /** The domain functions copy two slices into a local array. */
  method ComputeDomain(hash: Hash, kind: seq<Byte>, f: ForkData) returns (domain: B256)
    requires |kind| == 4
    ensures domain == Domain(hash, kind, f)
  {
    var forkDataRoot := ForkDataRoot(hash, f);
    var buf := new Byte[32](i => 0);
    forall i | 0 <= i < 4 { buf[i] := kind[i]; }
    forall i | 4 <= i < 32 { buf[i] := forkDataRoot[i - 4]; }
    assert buf[..] == Domain(hash, kind, f);
    domain := buf[..];
  }

  /** The domain type is four bytes, ending in 1 for the builder and in 0 for the proposer; the rest are
      bytes of the fork data's root, which is that of a container of two. */
  lemma DomainLayout(hash: Hash, f: ForkData)
    ensures Domain(hash, BUILDER_DOMAIN, f)[..4] == [0, 0, 0, 1]
    ensures Domain(hash, PROPOSER_DOMAIN, f)[..4] == [0, 0, 0, 0]
    ensures Pow2(1) == 2
    ensures var version: B256 := f.currentVersion + Zeros(28);
            var root: B256 := Root(hash, ZERO, [version, f.genesisValidatorsRoot], 1);
            Domain(hash, BUILDER_DOMAIN, f)[4..] == root[..28] && Domain(hash, PROPOSER_DOMAIN, f)[4..] == root[..28]
  {
    assert Pow2(1) == 2;
    RootOfTwo(hash, ZERO, Pad(f.currentVersion), f.genesisValidatorsRoot);
  }

  function SigningRoot(hash: Hash, objectRoot: B256, domain: B256): B256 {
    hash(objectRoot, domain)
  }

  function SigningClash(objectRoot: B256, domain: B256, objectRoot': B256, domain': B256): Option<Clash<B256>> {
    if (objectRoot, domain) == (objectRoot', domain') then None
        else Some(Clash((objectRoot, domain), (objectRoot', domain')))
  }

  /** A signing root is the root of a container of the message's root and the domain, in this order. */
  lemma SigningRootIsOfContainer(hash: Hash, objectRoot: B256, domain: B256)
    ensures Pow2(1) == 2
    ensures SigningRoot(hash, objectRoot, domain) == Root(hash, ZERO, [objectRoot, domain], 1)
  {
    assert Pow2(1) == 2;
    RootOfTwo(hash, ZERO, objectRoot, domain);
  }

  /** Equal signing roots mean the same message root and domain, or exhibit a collision. */
  lemma SigningRootBinds(hash: Hash, objectRoot: B256, domain: B256, objectRoot': B256, domain': B256)
    requires SigningRoot(hash, objectRoot, domain) == SigningRoot(hash, objectRoot', domain')
    ensures Bound(hash, objectRoot == objectRoot' && domain == domain',
                  SigningClash(objectRoot, domain, objectRoot', domain'))
  {
  }

  /** Builder and proposer domains differ whatever the fork data, so a message signed for one role never
      has the signing root it has in the other, unless an exhibited pair collides. */
  lemma RolesAreSeparated(hash: Hash, objectRoot: B256, builder: ForkData, proposer: ForkData)
    ensures Domain(hash, BUILDER_DOMAIN, builder) != Domain(hash, PROPOSER_DOMAIN, proposer)
    ensures var b, p := Domain(hash, BUILDER_DOMAIN, builder), Domain(hash, PROPOSER_DOMAIN, proposer);
            SigningRoot(hash, objectRoot, b) == SigningRoot(hash, objectRoot, p) ==>
              Genuine(hash, Clash((objectRoot, b), (objectRoot, p)))
  {
    var b, p := Domain(hash, BUILDER_DOMAIN, builder), Domain(hash, PROPOSER_DOMAIN, proposer);
    assert b[3] == 1 && p[3] == 0;
  }

  function KeyRoot(hash: Hash, key: PublicKey): B256 {
    assert |key| <= 32 * Pow2(1) by { assert Pow2(1) == 2; }
    VectorRoot(hash, key, 1)
  }

  function KeyClash(hash: Hash, a: PublicKey, b: PublicKey): Option<Clash<B256>> {
    assert |a| <= 32 * Pow2(1) by { assert Pow2(1) == 2; }
    VectorClash(hash, a, b, 1)
  }

  lemma KeyBinds(hash: Hash, a: PublicKey, b: PublicKey)
    requires KeyRoot(hash, a) == KeyRoot(hash, b)
    ensures Bound(hash, a == b, KeyClash(hash, a, b))
  {
    assert Pow2(1) == 2;
    VectorBinds(hash, a, b, 1);
  }

  function BidTraceLeaves(hash: Hash, m: BidTrace): (leaves: seq<B256>)
    ensures |leaves| == 9
  {
    [U64Root(m.slot), m.parentHash, m.blockHash, KeyRoot(hash, m.builderPubkey), KeyRoot(hash, m.proposerPubkey),
     AddressRoot(m.proposerFeeRecipient), U64Root(m.gasLimit), U64Root(m.gasUsed), U256Root(m.value)]
  }

  /** Which field is which leaf. */
  lemma BidTraceLeafIndexes(hash: Hash, m: BidTrace)
    ensures var leaves := BidTraceLeaves(hash, m);
            && leaves[0] == LittleEndian(m.slot, 8) + Zeros(24)
            && leaves[1] == m.parentHash && leaves[2] == m.blockHash
            && leaves[3] == KeyRoot(hash, m.builderPubkey) && leaves[4] == KeyRoot(hash, m.proposerPubkey)
            && leaves[5] == m.proposerFeeRecipient + Zeros(12)
            && leaves[6] == LittleEndian(m.gasLimit, 8) + Zeros(24)
            && leaves[7] == LittleEndian(m.gasUsed, 8) + Zeros(24)
            && leaves[8] == LittleEndian(m.value, 32)
  {
  }

  function BidTraceRoot(hash: Hash, m: BidTrace): B256 {
    assert 9 <= Pow2(4) by { Capacities(); }
    Root(hash, ZERO, BidTraceLeaves(hash, m), 4)
  }

  function BidTraceClash(hash: Hash, a: BidTrace, b: BidTrace): Option<Clash<B256>> {
    assert 9 <= Pow2(4) by { Capacities(); }
    Or(FindClash(hash, ZERO, BidTraceLeaves(hash, a), BidTraceLeaves(hash, b), 4),
       Or(KeyClash(hash, a.builderPubkey, b.builderPubkey), KeyClash(hash, a.proposerPubkey, b.proposerPubkey)))
  }

  lemma BidTraceFieldsEqual(hash: Hash, a: BidTrace, b: BidTrace)
    requires BidTraceLeaves(hash, a) == BidTraceLeaves(hash, b)
    ensures a.(builderPubkey := b.builderPubkey, proposerPubkey := b.proposerPubkey) == b
    ensures KeyRoot(hash, a.builderPubkey) == KeyRoot(hash, b.builderPubkey)
    ensures KeyRoot(hash, a.proposerPubkey) == KeyRoot(hash, b.proposerPubkey)
  {
    var la, lb := BidTraceLeaves(hash, a), BidTraceLeaves(hash, b);
    assert la[0] == lb[0] && la[1] == lb[1] && la[2] == lb[2] && la[3] == lb[3] && la[4] == lb[4];
    assert la[5] == lb[5] && la[6] == lb[6] && la[7] == lb[7] && la[8] == lb[8];
    U64RootInjective(a.slot, b.slot);
    PadInjective(a.proposerFeeRecipient, b.proposerFeeRecipient);
    U64RootInjective(a.gasLimit, b.gasLimit);
    U64RootInjective(a.gasUsed, b.gasUsed);
    U256RootInjective(a.value, b.value);
  }

  /** A builder's signature covers every field of its bid trace: two traces with the same signing root
      are the same trace, or an exhibited pair collides. */
  lemma BidSignatureBinds(hash: Hash, a: BidTrace, b: BidTrace, domain: B256)
    requires SigningRoot(hash, BidTraceRoot(hash, a), domain) == SigningRoot(hash, BidTraceRoot(hash, b), domain)
    ensures Bound(hash, a == b, Or(SigningClash(BidTraceRoot(hash, a), domain, BidTraceRoot(hash, b), domain),
                                   BidTraceClash(hash, a, b)))
  {
    SigningRootBinds(hash, BidTraceRoot(hash, a), domain, BidTraceRoot(hash, b), domain);
    if BidTraceRoot(hash, a) == BidTraceRoot(hash, b) {
      Capacities();
      RootBinds(hash, ZERO, BidTraceLeaves(hash, a), BidTraceLeaves(hash, b), 4);
      if BidTraceLeaves(hash, a) == BidTraceLeaves(hash, b) {
        BidTraceFieldsEqual(hash, a, b);
        KeyBinds(hash, a.builderPubkey, b.builderPubkey);
        KeyBinds(hash, a.proposerPubkey, b.proposerPubkey);
      }
    }
  }

  function RegistrationLeaves(hash: Hash, r: ValidatorRegistration): (leaves: seq<B256>)
    ensures |leaves| == 4
  {
    [AddressRoot(r.feeRecipient), U64Root(r.gasLimit), U64Root(r.timestamp), KeyRoot(hash, r.pubkey)]
  }

  lemma RegistrationLeafIndexes(hash: Hash, r: ValidatorRegistration)
    ensures var leaves := RegistrationLeaves(hash, r);
            && leaves[0] == r.feeRecipient + Zeros(12)
            && leaves[1] == LittleEndian(r.gasLimit, 8) + Zeros(24)
            && leaves[2] == LittleEndian(r.timestamp, 8) + Zeros(24)
            && leaves[3] == KeyRoot(hash, r.pubkey)
  {
  }

  function RegistrationRoot(hash: Hash, r: ValidatorRegistration): B256 {
    assert 4 <= Pow2(2) by { Capacities(); }
    Root(hash, ZERO, RegistrationLeaves(hash, r), 2)
  }

  function RegistrationClash(hash: Hash, a: ValidatorRegistration, b: ValidatorRegistration): Option<Clash<B256>> {
    assert 4 <= Pow2(2) by { Capacities(); }
    Or(FindClash(hash, ZERO, RegistrationLeaves(hash, a), RegistrationLeaves(hash, b), 2),
       KeyClash(hash, a.pubkey, b.pubkey))
  }

  lemma RegistrationFieldsEqual(hash: Hash, a: ValidatorRegistration, b: ValidatorRegistration)
    requires RegistrationLeaves(hash, a) == RegistrationLeaves(hash, b)
    ensures a.(pubkey := b.pubkey) == b && KeyRoot(hash, a.pubkey) == KeyRoot(hash, b.pubkey)
  {
    var la, lb := RegistrationLeaves(hash, a), RegistrationLeaves(hash, b);
    assert la[0] == lb[0] && la[1] == lb[1] && la[2] == lb[2] && la[3] == lb[3];
    PadInjective(a.feeRecipient, b.feeRecipient);
    U64RootInjective(a.gasLimit, b.gasLimit);
    U64RootInjective(a.timestamp, b.timestamp);
  }

  /** A validator's signature covers every field of its registration. */
  lemma RegistrationSignatureBinds(hash: Hash, a: ValidatorRegistration, b: ValidatorRegistration, domain: B256)
    requires SigningRoot(hash, RegistrationRoot(hash, a), domain)
             == SigningRoot(hash, RegistrationRoot(hash, b), domain)
    ensures Bound(hash, a == b, Or(SigningClash(RegistrationRoot(hash, a), domain, RegistrationRoot(hash, b), domain),
                                   RegistrationClash(hash, a, b)))
  {
    SigningRootBinds(hash, RegistrationRoot(hash, a), domain, RegistrationRoot(hash, b), domain);
    if RegistrationRoot(hash, a) == RegistrationRoot(hash, b) {
      Capacities();
      RootBinds(hash, ZERO, RegistrationLeaves(hash, a), RegistrationLeaves(hash, b), 2);
      if RegistrationLeaves(hash, a) == RegistrationLeaves(hash, b) {
        RegistrationFieldsEqual(hash, a, b);
        KeyBinds(hash, a.pubkey, b.pubkey);
      }
    }
  }
}
