/** The relay's domain values (crates/entity, crates/crypto).  Keys, roots, hashes and
    signatures are the fixed-width byte strings they are serialized to, so that equality of
    keys is equality of bytes, as the source's `PartialEq` and `Hash` implementations have it. */
module Entities {

  datatype Option<+T> = None | Some(value: T)

  datatype Result<+T, +E> = Ok(value: T) | Err(error: E)

  newtype Byte = b: int | 0 <= b < 256

  const U64_MAX: nat := 0xFFFF_FFFF_FFFF_FFFF
  const U64_LIMIT: nat := 0x1_0000_0000_0000_0000
  const U256_LIMIT: nat := U64_LIMIT * U64_LIMIT * U64_LIMIT * U64_LIMIT

  type U64 = n: nat | n <= U64_MAX
  type U256 = n: nat | n < U256_LIMIT

  type B256 = s: seq<Byte> | |s| == 32 witness seq(32, i => 0)
  type Address = s: seq<Byte> | |s| == 20 witness seq(20, i => 0)
  type PublicKey = s: seq<Byte> | |s| == 48 witness seq(48, i => 0)
  type Signature = s: seq<Byte> | |s| == 96 witness seq(96, i => 0)
  type Bloom = s: seq<Byte> | |s| == 256 witness seq(256, i => 0)
  type ExtraData = s: seq<Byte> | |s| <= 32
  type Transaction = s: seq<Byte> | |s| <= 0x4000_0000
  type Transactions = s: seq<Transaction> | |s| <= 0x10_0000
  type Withdrawals = s: seq<Withdrawal> | |s| <= 16

  datatype Withdrawal = Withdrawal(index: U64, validatorIndex: U64, address: Address, amount: U64)

  datatype ExecutionPayload = ExecutionPayload(
    parentHash: B256,
    feeRecipient: Address,
    stateRoot: B256,
    receiptsRoot: B256,
    logsBloom: Bloom,
    prevRandao: B256,
    blockNumber: U64,
    gasLimit: U64,
    gasUsed: U64,
    timestamp: U64,
    extraData: ExtraData,
    baseFeePerGas: U256,
    blockHash: B256,
    transactions: Transactions,
    withdrawals: Withdrawals,
    blobGasUsed: U64,
    excessBlobGas: U64)

  datatype ExecutionPayloadHeader = ExecutionPayloadHeader(
    parentHash: B256,
    feeRecipient: Address,
    stateRoot: B256,
    receiptsRoot: B256,
    logsBloom: Bloom,
    prevRandao: B256,
    blockNumber: U64,
    gasLimit: U64,
    gasUsed: U64,
    timestamp: U64,
    extraData: ExtraData,
    baseFeePerGas: U256,
    blockHash: B256,
    transactionsRoot: B256,
    withdrawalsRoot: B256,
    blobGasUsed: U64,
    excessBlobGas: U64)

  datatype BlobsBundle = BlobsBundle(commitments: seq<seq<Byte>>, proofs: seq<seq<Byte>>, blobs: seq<seq<Byte>>)

  datatype BidTrace = BidTrace(
    slot: U64,
    parentHash: B256,
    blockHash: B256,
    builderPubkey: PublicKey,
    proposerPubkey: PublicKey,
    proposerFeeRecipient: Address,
    gasLimit: U64,
    gasUsed: U64,
    value: U256)

  datatype BidSubmission = BidSubmission(
    message: BidTrace,
    payload: ExecutionPayload,
    blobs: BlobsBundle,
    signature: Signature)
  {
    /** What `unblind` hands out once this bid is the stored one. */
    function ToResponse(): BlindedBlockResponse {
      BlindedBlockResponse(payload, Some(blobs))
    }
  }

  datatype BlindedBlockResponse = BlindedBlockResponse(payload: ExecutionPayload, blobs: Option<BlobsBundle>)
  {
    /** The response holds what the builder submitted: this payload, and these blobs. */
    predicate Carries(bid: BidSubmission) {
      payload == bid.payload && blobs == Some(bid.blobs)
    }
  }

  datatype SignedHeader = SignedHeader(message: ExecutionPayloadHeader, signature: Signature)

  datatype ForkName = Bellatrix | Capella | Deneb | Electra

  datatype Versioned<+T> = Versioned(version: ForkName, data: T)

  datatype PayloadAttributes = PayloadAttributes(timestamp: U64, prevRandao: B256, suggestedFeeRecipient: Address)

  datatype ProposerDuty = ProposerDuty(pubkey: PublicKey, validatorIndex: U64, slot: U64)

  datatype ValidatorRegistration = ValidatorRegistration(feeRecipient: Address, gasLimit: U64, timestamp: U64,
                                                         pubkey: PublicKey)

  datatype SignedRegistration = SignedRegistration(message: ValidatorRegistration, signature: Signature)

  datatype RelayError =
    | ZeroBid
    | UnauthorizedBuilder
    | UnauthorizedGetHeader
    | InvalidSlot
    | NoBidFound
    | DutyNotFound
    | InvalidBuilderSignature
    | InvalidValidatorSignature
    | InvalidPayloadAttributes
    | ProposerIndexMismatch(expected: U64, actual: U64)
    | NoBlindedBlockResponse
    | UnauthorizedSubmission
    | BlockHashMismatch
    | BidNotFound(slot: U64)
    | BidValueNotHighEnough(provided: U256, current: U256)

  /** Everything the use cases take from cryptography, as unconstrained functions.  The proofs of
      the protocol hold whatever they are; module Wiring gives the relay's own. */
  datatype Env = Env(
    bidSigned: BidSubmission -> bool,
    registrationSigned: SignedRegistration -> bool,
    revealSigned: (PublicKey, U64, U64, B256, Signature) -> bool,
    transactionsRoot: Transactions -> B256,
    withdrawalsRoot: Withdrawals -> B256,
    sign: ExecutionPayloadHeader -> Signature)

  /** `HeadSlot::is_next_slot` compares `head + 1`, which wraps at the top of `u64` in a release build. */
  function NextSlot(head: U64): U64 {
    if head == U64_MAX then 0 else head + 1
  }

  /** `SignedHeader::build_header`: every field copied, the two lists replaced by their roots. */
  function BuildHeader(env: Env, p: ExecutionPayload): ExecutionPayloadHeader {
    ExecutionPayloadHeader(
      p.parentHash, p.feeRecipient, p.stateRoot, p.receiptsRoot, p.logsBloom, p.prevRandao,
      p.blockNumber, p.gasLimit, p.gasUsed, p.timestamp, p.extraData, p.baseFeePerGas, p.blockHash,
      env.transactionsRoot(p.transactions), env.withdrawalsRoot(p.withdrawals),
      p.blobGasUsed, p.excessBlobGas)
  }
}
