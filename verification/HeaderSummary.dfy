/** The header the relay signs is an SSZ summary of the payload it later reveals
    (crates/entity/src/execution_payload.rs, crates/entity/src/signed_header.rs). */
module HeaderSummary {
  import opened Entities
  import opened MerkleTree
  import opened Ssz

  function TransactionRoot(hash: Hash, tx: Transaction): B256 {
    assert |tx| <= 32 * Pow2(25) by { Capacities(); }
    BytesRoot(hash, tx, 25)
  }

  function TransactionClash(hash: Hash, a: Transaction, b: Transaction): Option<Clash<B256>> {
    assert ShortEnough(a, 25) && ShortEnough(b, 25) by { Capacities(); }
    BytesClash(hash, a, b, 25)
  }

  lemma TransactionBinds(hash: Hash, a: Transaction, b: Transaction)
    requires TransactionRoot(hash, a) == TransactionRoot(hash, b)
    ensures Bound(hash, a == b, TransactionClash(hash, a, b))
  {
    Capacities();
    BytesBind(hash, a, b, 25);
  }

  function TransactionLeaves(hash: Hash, txs: seq<Transaction>): (leaves: seq<B256>)
    ensures |leaves| == |txs|
  {
    if txs == [] then [] else [TransactionRoot(hash, txs[0])] + TransactionLeaves(hash, txs[1..])
  }

  function TransactionLeavesClash(hash: Hash, a: seq<Transaction>, b: seq<Transaction>): Option<Clash<B256>>
    requires |a| == |b|
  {
    if a == [] then None else Or(TransactionClash(hash, a[0], b[0]), TransactionLeavesClash(hash, a[1..], b[1..]))
  }

  lemma {:induction false} TransactionLeavesBind(hash: Hash, a: seq<Transaction>, b: seq<Transaction>)
    requires |a| == |b| && TransactionLeaves(hash, a) == TransactionLeaves(hash, b)
    ensures Bound(hash, a == b, TransactionLeavesClash(hash, a, b))
  {
    if a != [] {
      var la, lb := TransactionLeaves(hash, a), TransactionLeaves(hash, b);
      assert la[0] == lb[0] && la[1..] == lb[1..];
      TransactionBinds(hash, a[0], b[0]);
      TransactionLeavesBind(hash, a[1..], b[1..]);
      RejoinFirst(hash, a, b, TransactionClash(hash, a[0], b[0]), TransactionLeavesClash(hash, a[1..], b[1..]));
    }
  }

  function TransactionsRoot(hash: Hash, txs: Transactions): B256 {
    assert |txs| <= Pow2(20) by { Capacities(); }
    ListRoot(hash, ZERO, TransactionLeaves(hash, txs), 20, LengthChunk(|txs|))
  }

  function TransactionsClash(hash: Hash, a: Transactions, b: Transactions): Option<Clash<B256>> {
    assert |a| <= Pow2(20) && |b| <= Pow2(20) by { Capacities(); }
    assert LengthChunk(|a|) == LengthChunk(|b|) ==> |a| == |b| by {
      if LengthChunk(|a|) == LengthChunk(|b|) { LengthChunkInjective(|a|, |b|); }
    }
    var tree := FindListClash(hash, ZERO, TransactionLeaves(hash, a), LengthChunk(|a|), TransactionLeaves(hash, b),
                              LengthChunk(|b|), 20);
    if |a| == |b| then Or(tree, TransactionLeavesClash(hash, a, b)) else tree
  }

  lemma TransactionsBind(hash: Hash, a: Transactions, b: Transactions)
    requires TransactionsRoot(hash, a) == TransactionsRoot(hash, b)
    ensures Bound(hash, a == b, TransactionsClash(hash, a, b))
  {
    Capacities();
    if LengthChunk(|a|) == LengthChunk(|b|) { LengthChunkInjective(|a|, |b|); }
    var la, lb := TransactionLeaves(hash, a), TransactionLeaves(hash, b);
    ListRootBinds(hash, ZERO, la, LengthChunk(|a|), lb, LengthChunk(|b|), 20);
    if la == lb { TransactionLeavesBind(hash, a, b); }
  }

  function WithdrawalFields(w: Withdrawal): (leaves: seq<B256>)
    ensures |leaves| == 4
  {
    [U64Root(w.index), U64Root(w.validatorIndex), AddressRoot(w.address), U64Root(w.amount)]
  }

  function WithdrawalRoot(hash: Hash, w: Withdrawal): B256 {
    assert 4 <= Pow2(2) by { Capacities(); }
    Root(hash, ZERO, WithdrawalFields(w), 2)
  }

  function WithdrawalClash(hash: Hash, a: Withdrawal, b: Withdrawal): Option<Clash<B256>> {
    assert 4 <= Pow2(2) by { Capacities(); }
    FindClash(hash, ZERO, WithdrawalFields(a), WithdrawalFields(b), 2)
  }

  lemma WithdrawalFieldsInjective(a: Withdrawal, b: Withdrawal)
    requires WithdrawalFields(a) == WithdrawalFields(b)
    ensures a == b
  {
    var la, lb := WithdrawalFields(a), WithdrawalFields(b);
    assert la[0] == lb[0] && la[1] == lb[1] && la[2] == lb[2] && la[3] == lb[3];
    U64RootInjective(a.index, b.index);
    U64RootInjective(a.validatorIndex, b.validatorIndex);
    PadInjective(a.address, b.address);
    U64RootInjective(a.amount, b.amount);
  }

  lemma WithdrawalBinds(hash: Hash, a: Withdrawal, b: Withdrawal)
    requires WithdrawalRoot(hash, a) == WithdrawalRoot(hash, b)
    ensures Bound(hash, a == b, WithdrawalClash(hash, a, b))
  {
    Capacities();
    RootBinds(hash, ZERO, WithdrawalFields(a), WithdrawalFields(b), 2);
    if WithdrawalFields(a) == WithdrawalFields(b) { WithdrawalFieldsInjective(a, b); }
  }

  function WithdrawalLeaves(hash: Hash, ws: seq<Withdrawal>): (leaves: seq<B256>)
    ensures |leaves| == |ws|
  {
    if ws == [] then [] else [WithdrawalRoot(hash, ws[0])] + WithdrawalLeaves(hash, ws[1..])
  }

  function WithdrawalLeavesClash(hash: Hash, a: seq<Withdrawal>, b: seq<Withdrawal>): Option<Clash<B256>>
    requires |a| == |b|
  {
    if a == [] then None else Or(WithdrawalClash(hash, a[0], b[0]), WithdrawalLeavesClash(hash, a[1..], b[1..]))
  }

  lemma {:induction false} WithdrawalLeavesBind(hash: Hash, a: seq<Withdrawal>, b: seq<Withdrawal>)
    requires |a| == |b| && WithdrawalLeaves(hash, a) == WithdrawalLeaves(hash, b)
    ensures Bound(hash, a == b, WithdrawalLeavesClash(hash, a, b))
  {
    if a != [] {
      var la, lb := WithdrawalLeaves(hash, a), WithdrawalLeaves(hash, b);
      assert la[0] == lb[0] && la[1..] == lb[1..];
      WithdrawalBinds(hash, a[0], b[0]);
      WithdrawalLeavesBind(hash, a[1..], b[1..]);
      RejoinFirst(hash, a, b, WithdrawalClash(hash, a[0], b[0]), WithdrawalLeavesClash(hash, a[1..], b[1..]));
    }
  }

  function WithdrawalsRoot(hash: Hash, ws: Withdrawals): B256 {
    assert |ws| <= Pow2(4) by { Capacities(); }
    ListRoot(hash, ZERO, WithdrawalLeaves(hash, ws), 4, LengthChunk(|ws|))
  }

  function WithdrawalsClash(hash: Hash, a: Withdrawals, b: Withdrawals): Option<Clash<B256>> {
    assert |a| <= Pow2(4) && |b| <= Pow2(4) by { Capacities(); }
    assert LengthChunk(|a|) == LengthChunk(|b|) ==> |a| == |b| by {
      if LengthChunk(|a|) == LengthChunk(|b|) { LengthChunkInjective(|a|, |b|); }
    }
    var tree := FindListClash(hash, ZERO, WithdrawalLeaves(hash, a), LengthChunk(|a|), WithdrawalLeaves(hash, b),
                              LengthChunk(|b|), 4);
    if |a| == |b| then Or(tree, WithdrawalLeavesClash(hash, a, b)) else tree
  }

  lemma WithdrawalsBind(hash: Hash, a: Withdrawals, b: Withdrawals)
    requires WithdrawalsRoot(hash, a) == WithdrawalsRoot(hash, b)
    ensures Bound(hash, a == b, WithdrawalsClash(hash, a, b))
  {
    Capacities();
    if LengthChunk(|a|) == LengthChunk(|b|) { LengthChunkInjective(|a|, |b|); }
    var la, lb := WithdrawalLeaves(hash, a), WithdrawalLeaves(hash, b);
    ListRootBinds(hash, ZERO, la, LengthChunk(|a|), lb, LengthChunk(|b|), 4);
    if la == lb { WithdrawalLeavesBind(hash, a, b); }
  }

  function BloomRoot(hash: Hash, bloom: Bloom): B256 {
    assert |bloom| <= 32 * Pow2(3) by { Capacities(); }
    VectorRoot(hash, bloom, 3)
  }

  function BloomClash(hash: Hash, a: Bloom, b: Bloom): Option<Clash<B256>> {
    assert |a| <= 32 * Pow2(3) by { Capacities(); }
    VectorClash(hash, a, b, 3)
  }

  function ExtraRoot(hash: Hash, extra: ExtraData): B256 {
    BytesRoot(hash, extra, 0)
  }

  /** The roots of a payload's fields, in the order of its declaration. */
  function PayloadLeaves(hash: Hash, p: ExecutionPayload): (leaves: seq<B256>)
    ensures |leaves| == 17
  {
    [p.parentHash, AddressRoot(p.feeRecipient), p.stateRoot, p.receiptsRoot, BloomRoot(hash, p.logsBloom), p.prevRandao,
     U64Root(p.blockNumber), U64Root(p.gasLimit), U64Root(p.gasUsed), U64Root(p.timestamp),
     ExtraRoot(hash, p.extraData),
     U256Root(p.baseFeePerGas), p.blockHash, TransactionsRoot(hash, p.transactions),
     WithdrawalsRoot(hash, p.withdrawals),
     U64Root(p.blobGasUsed), U64Root(p.excessBlobGas)]
  }

  /** The same for a header; a `B256` is its own root. */
  function HeaderLeaves(hash: Hash, h: ExecutionPayloadHeader): (leaves: seq<B256>)
    ensures |leaves| == 17
  {
    [h.parentHash, AddressRoot(h.feeRecipient), h.stateRoot, h.receiptsRoot, BloomRoot(hash, h.logsBloom), h.prevRandao,
     U64Root(h.blockNumber), U64Root(h.gasLimit), U64Root(h.gasUsed), U64Root(h.timestamp),
     ExtraRoot(hash, h.extraData),
     U256Root(h.baseFeePerGas), h.blockHash, h.transactionsRoot, h.withdrawalsRoot,
     U64Root(h.blobGasUsed), U64Root(h.excessBlobGas)]
  }

  lemma Displayed<C>(s: seq<C>, c0: C, c1: C, c2: C, c3: C, c4: C, c5: C, c6: C, c7: C, c8: C, c9: C, c10: C, c11: C,
                     c12: C, c13: C, c14: C, c15: C, c16: C)
    requires s == [c0, c1, c2, c3, c4, c5, c6, c7, c8, c9, c10, c11, c12, c13, c14, c15, c16]
    ensures |s| == 17
    ensures s[0] == c0 && s[1] == c1 && s[2] == c2 && s[3] == c3 && s[4] == c4 && s[5] == c5 && s[6] == c6
    ensures s[7] == c7 && s[8] == c8 && s[9] == c9 && s[10] == c10 && s[11] == c11 && s[12] == c12 && s[13] == c13
    ensures s[14] == c14 && s[15] == c15 && s[16] == c16
  {
  }

  /** Which field is which leaf, by the order of the SSZ containers of the consensus specifications. */
  lemma HeaderLeafIndexes(hash: Hash, h: ExecutionPayloadHeader)
    ensures var leaves := HeaderLeaves(hash, h);
            && leaves[0] == h.parentHash && leaves[1] == AddressRoot(h.feeRecipient)
            && leaves[2] == h.stateRoot && leaves[3] == h.receiptsRoot
            && leaves[4] == BloomRoot(hash, h.logsBloom) && leaves[5] == h.prevRandao
            && leaves[6] == U64Root(h.blockNumber) && leaves[7] == U64Root(h.gasLimit)
            && leaves[8] == U64Root(h.gasUsed) && leaves[9] == U64Root(h.timestamp)
            && leaves[10] == ExtraRoot(hash, h.extraData) && leaves[11] == U256Root(h.baseFeePerGas)
            && leaves[12] == h.blockHash && leaves[13] == h.transactionsRoot && leaves[14] == h.withdrawalsRoot
            && leaves[15] == U64Root(h.blobGasUsed) && leaves[16] == U64Root(h.excessBlobGas)
  {
    Displayed(HeaderLeaves(hash, h), h.parentHash, AddressRoot(h.feeRecipient), h.stateRoot, h.receiptsRoot,
              BloomRoot(hash, h.logsBloom), h.prevRandao, U64Root(h.blockNumber), U64Root(h.gasLimit),
              U64Root(h.gasUsed), U64Root(h.timestamp), ExtraRoot(hash, h.extraData), U256Root(h.baseFeePerGas),
              h.blockHash, h.transactionsRoot, h.withdrawalsRoot, U64Root(h.blobGasUsed), U64Root(h.excessBlobGas));
  }

  lemma WithdrawalLeafIndexes(w: Withdrawal)
    ensures var leaves := WithdrawalFields(w);
            && leaves[0] == LittleEndian(w.index, 8) + Zeros(24)
            && leaves[1] == LittleEndian(w.validatorIndex, 8) + Zeros(24)
            && leaves[2] == w.address + Zeros(12)
            && leaves[3] == LittleEndian(w.amount, 8) + Zeros(24)
  {
  }

  function PayloadRoot(hash: Hash, p: ExecutionPayload): B256 {
    assert 17 <= Pow2(5) by { Capacities(); }
    Root(hash, ZERO, PayloadLeaves(hash, p), 5)
  }

  function HeaderRoot(hash: Hash, h: ExecutionPayloadHeader): B256 {
    assert 17 <= Pow2(5) by { Capacities(); }
    Root(hash, ZERO, HeaderLeaves(hash, h), 5)
  }

  /** The relay's header builder takes its list roots from this hash. */
  ghost predicate RootsFrom(env: Env, hash: Hash) {
    && (forall txs :: env.transactionsRoot(txs) == TransactionsRoot(hash, txs))
    && (forall ws :: env.withdrawalsRoot(ws) == WithdrawalsRoot(hash, ws))
  }

  /** The header built from a payload has the payload's leaves, each at the same index, and so its root. */
  lemma HeaderIsSummary(env: Env, hash: Hash, p: ExecutionPayload)
    requires RootsFrom(env, hash)
    ensures HeaderLeaves(hash, BuildHeader(env, p)) == PayloadLeaves(hash, p)
    ensures HeaderRoot(hash, BuildHeader(env, p)) == PayloadRoot(hash, p)
  {
    assert HeaderLeaves(hash, BuildHeader(env, p)) == PayloadLeaves(hash, p);
  }

  function HeaderClash(hash: Hash, a: ExecutionPayloadHeader, b: ExecutionPayloadHeader): Option<Clash<B256>> {
    assert 17 <= Pow2(5) by { Capacities(); }
    Or(FindClash(hash, ZERO, HeaderLeaves(hash, a), HeaderLeaves(hash, b), 5),
       Or(BloomClash(hash, a.logsBloom, b.logsBloom), BytesClash(hash, a.extraData, b.extraData, 0)))
  }

  lemma FixedFieldsEqual(hash: Hash, a: ExecutionPayloadHeader, b: ExecutionPayloadHeader)
    requires HeaderLeaves(hash, a) == HeaderLeaves(hash, b)
    ensures a.(logsBloom := b.logsBloom, extraData := b.extraData) == b
    ensures BloomRoot(hash, a.logsBloom) == BloomRoot(hash, b.logsBloom)
    ensures ExtraRoot(hash, a.extraData) == ExtraRoot(hash, b.extraData)
  {
    var la, lb := HeaderLeaves(hash, a), HeaderLeaves(hash, b);
    forall i | 0 <= i < 17 ensures la[i] == lb[i] { }
    assert la[0] == lb[0] && la[1] == lb[1] && la[2] == lb[2] && la[3] == lb[3] && la[4] == lb[4] && la[5] == lb[5];
    assert la[6] == lb[6] && la[7] == lb[7] && la[8] == lb[8] && la[9] == lb[9] && la[10] == lb[10] && la[11] == lb[11];
    assert la[12] == lb[12] && la[13] == lb[13] && la[14] == lb[14] && la[15] == lb[15] && la[16] == lb[16];
    PadInjective(a.feeRecipient, b.feeRecipient);
    U64RootInjective(a.blockNumber, b.blockNumber);
    U64RootInjective(a.gasLimit, b.gasLimit);
    U64RootInjective(a.gasUsed, b.gasUsed);
    U64RootInjective(a.timestamp, b.timestamp);
    U256RootInjective(a.baseFeePerGas, b.baseFeePerGas);
    U64RootInjective(a.blobGasUsed, b.blobGasUsed);
    U64RootInjective(a.excessBlobGas, b.excessBlobGas);
  }

  /** Equal header roots mean equal headers, field by field, or exhibit a collision of the hash. */
  lemma HeaderBinds(hash: Hash, a: ExecutionPayloadHeader, b: ExecutionPayloadHeader)
    requires HeaderRoot(hash, a) == HeaderRoot(hash, b)
    ensures Bound(hash, a == b, HeaderClash(hash, a, b))
  {
    Capacities();
    RootBinds(hash, ZERO, HeaderLeaves(hash, a), HeaderLeaves(hash, b), 5);
    if FindClash(hash, ZERO, HeaderLeaves(hash, a), HeaderLeaves(hash, b), 5).None? {
      FixedFieldsEqual(hash, a, b);
      VectorBinds(hash, a.logsBloom, b.logsBloom, 3);
      BytesBind(hash, a.extraData, b.extraData, 0);
    }
  }

  function PayloadClash(env: Env, hash: Hash, a: ExecutionPayload, b: ExecutionPayload): Option<Clash<B256>> {
    Or(HeaderClash(hash, BuildHeader(env, a), BuildHeader(env, b)),
       Or(TransactionsClash(hash, a.transactions, b.transactions),
          WithdrawalsClash(hash, a.withdrawals, b.withdrawals)))
  }

  /** A header commits to one payload: payloads whose headers have the same root are the same payload,
      transactions and withdrawals included, or exhibit a collision of the hash. */
  lemma HeaderCommitsToPayload(env: Env, hash: Hash, a: ExecutionPayload, b: ExecutionPayload)
    requires RootsFrom(env, hash)
    requires HeaderRoot(hash, BuildHeader(env, a)) == HeaderRoot(hash, BuildHeader(env, b))
    ensures Bound(hash, a == b, PayloadClash(env, hash, a, b))
  {
    var ha, hb := BuildHeader(env, a), BuildHeader(env, b);
    HeaderBinds(hash, ha, hb);
    if ha == hb {
      assert ha.transactionsRoot == hb.transactionsRoot && ha.withdrawalsRoot == hb.withdrawalsRoot;
      TransactionsBind(hash, a.transactions, b.transactions);
      WithdrawalsBind(hash, a.withdrawals, b.withdrawals);
    }
  }
}
