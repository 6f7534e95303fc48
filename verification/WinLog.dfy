/** Logs of accepted bids, in the order they were accepted (or stored), and what the two indexes
    of the relay, by slot and by proposer, have to do with each other. */
module WinLog {
  import opened Entities

  /** An accepted bid: the call that made it and the duty that call had read. */
  datatype Win = Win(call: nat, bid: BidSubmission, duty: ProposerDuty)
  {
    function Slot(): U64 { bid.message.slot }
    function Value(): U256 { bid.message.value }
  }

  function LastFor(log: seq<Win>, pubkey: PublicKey): Option<Win> {
    if log == [] then None
    else if log[|log| - 1].duty.pubkey == pubkey then Some(log[|log| - 1])
    else LastFor(log[..|log| - 1], pubkey)
  }

  function LastAt(log: seq<Win>, slot: U64): Option<Win> {
    if log == [] then None
    else if log[|log| - 1].Slot() == slot then Some(log[|log| - 1])
    else LastAt(log[..|log| - 1], slot)
  }

  function Of(log: seq<Win>, pubkey: PublicKey): seq<Win> {
    if log == [] then []
    else Of(log[..|log| - 1], pubkey) + if log[|log| - 1].duty.pubkey == pubkey then [log[|log| - 1]] else []
  }

  /** Every duty names the proposer the rota gives its slot. */
  ghost predicate FollowsRota(rota: U64 -> PublicKey, duties: seq<ProposerDuty>) {
    forall d :: d in duties ==> d.pubkey == rota(d.slot)
  }

  /** Every accepted bid of a slot was for the same proposer. */
  ghost predicate OneProposerPerSlot(log: seq<Win>) {
    forall i, j :: 0 <= i < |log| && 0 <= j < |log| && log[i].Slot() == log[j].Slot()
        ==> log[i].duty.pubkey == log[j].duty.pubkey
  }

  /** Accepted bids whose payloads claim one block hash carry one payload. */
  ghost predicate OnePayloadPerHash(log: seq<Win>) {
    forall v, w :: v in log && w in log && v.bid.payload.blockHash == w.bid.payload.blockHash ==>
      v.bid.payload == w.bid.payload
  }

  ghost predicate DistinctCalls(log: seq<Win>) {
    forall i, j :: 0 <= i < j < |log| ==> log[i].call != log[j].call
  }

  /** Within a slot every accepted bid exceeds the one before. */
  ghost predicate Climbing(log: seq<Win>) {
    forall i, j :: 0 <= i < j < |log| && log[i].Slot() == log[j].Slot() ==> log[i].Value() < log[j].Value()
  }

  lemma {:induction false} LastForIsInLog(log: seq<Win>, pubkey: PublicKey)
    ensures LastFor(log, pubkey).Some? <==> exists i :: 0 <= i < |log| && log[i].duty.pubkey == pubkey
    ensures LastFor(log, pubkey).Some? ==>
              LastFor(log, pubkey).value in log && LastFor(log, pubkey).value.duty.pubkey == pubkey
  {
    if log != [] {
      var n := |log| - 1;
      LastForIsInLog(log[..n], pubkey);
      if LastFor(log, pubkey).None? {
        forall i | 0 <= i < |log| ensures log[i].duty.pubkey != pubkey {
          if i < n { assert log[..n][i] == log[i]; }
        }
      }
    }
  }

  lemma {:induction false} LastAtIsInLog(log: seq<Win>, slot: U64)
    ensures LastAt(log, slot).Some? <==> exists i :: 0 <= i < |log| && log[i].Slot() == slot
    ensures LastAt(log, slot).Some? ==> LastAt(log, slot).value in log && LastAt(log, slot).value.Slot() == slot
  {
    if log != [] {
      var n := |log| - 1;
      LastAtIsInLog(log[..n], slot);
      if LastAt(log, slot).None? {
        forall i | 0 <= i < |log| ensures log[i].Slot() != slot {
          if i < n { assert log[..n][i] == log[i]; }
        }
      }
    }
  }

  /** When slots keep their proposers, the last bid accepted for a proposer is also the last bid
      accepted for its slot. */
  lemma {:induction false} LastForIsLastAt(log: seq<Win>, pubkey: PublicKey)
    requires OneProposerPerSlot(log) && LastFor(log, pubkey).Some?
    ensures LastAt(log, LastFor(log, pubkey).value.Slot()) == LastFor(log, pubkey)
  {
    var n := |log| - 1;
    if log[n].duty.pubkey != pubkey {
      LastForIsLastAt(log[..n], pubkey);
      LastForIsInLog(log[..n], pubkey);
      var i :| 0 <= i < n && log[i] == LastFor(log, pubkey).value;
      assert log[i].Slot() != log[n].Slot();
    }
  }

  /** The last bid of a slot in a climbing log has the slot's greatest value. */
  lemma {:induction false} LastAtIsGreatest(log: seq<Win>, w: Win)
    requires Climbing(log) && w in log
    ensures LastAt(log, w.Slot()).Some? && w.Value() <= LastAt(log, w.Slot()).value.Value()
  {
    var n := |log| - 1;
    if log[n].Slot() != w.Slot() {
      LastAtIsGreatest(log[..n], w);
    } else {
      var i :| 0 <= i <= n && log[i] == w;
    }
  }

  lemma {:induction false} OfKeepsMembers(log: seq<Win>, pubkey: PublicKey)
    ensures forall w :: w in Of(log, pubkey) <==> w in log && w.duty.pubkey == pubkey
  {
    if log != [] {
      var n := |log| - 1;
      OfKeepsMembers(log[..n], pubkey);
      assert log == log[..n] + [log[n]];
    }
  }

  lemma {:induction false} OfKeepsDistinct(log: seq<Win>, pubkey: PublicKey)
    requires DistinctCalls(log)
    ensures DistinctCalls(Of(log, pubkey))
  {
    if log != [] {
      var n := |log| - 1;
      OfKeepsDistinct(log[..n], pubkey);
      OfKeepsMembers(log[..n], pubkey);
      var kept := Of(log[..n], pubkey);
      forall i | 0 <= i < |kept| ensures kept[i].call != log[n].call {
        assert kept[i] in log[..n];
      }
    }
  }

  lemma {:induction false} LastForEndsOf(log: seq<Win>, pubkey: PublicKey)
    ensures LastFor(log, pubkey) == if Of(log, pubkey) == [] then None else Some(Of(log, pubkey)[|Of(log, pubkey)| - 1])
  {
    if log != [] { LastForEndsOf(log[..|log| - 1], pubkey); }
  }

  /** A proper prefix of a log without repeated calls misses a member of the log. */
  lemma PrefixMissesAMember(short: seq<Win>, long: seq<Win>)
    requires short <= long && DistinctCalls(long)
    ensures short == long || exists w :: w in long && w !in short
  {
    if |short| < |long| {
      var w := long[|short|];
      forall i | 0 <= i < |short| ensures short[i] != w {
        assert long[i] == short[i];
      }
      assert w in long && w !in short;
    }
  }

  /** Full agreement of the two indexes on a proposer: the response stored for it is that of the last
      bid accepted for it, and that is also the last bid its slot accepted and, while cached, its best. */
  ghost predicate Agree(blinded: map<PublicKey, BlindedBlockResponse>, best: map<U64, BidSubmission>, log: seq<Win>,
                        pubkey: PublicKey)
  {
    var last := LastFor(log, pubkey);
    && (pubkey in blinded <==> last.Some?)
    && (last.Some? ==>
         && blinded[pubkey].payload == last.value.bid.payload && blinded[pubkey].blobs == Some(last.value.bid.blobs)
         && LastAt(log, last.value.Slot()) == last
         && (last.value.Slot() in best ==> best[last.value.Slot()] == last.value.bid))
  }

  lemma {:induction false} LastForIsLatest(log: seq<Win>, pubkey: PublicKey, i: nat) returns (j: nat)
    requires i < |log| && log[i].duty.pubkey == pubkey
    ensures i <= j < |log| && LastFor(log, pubkey) == Some(log[j])
  {
    j := |log| - 1;
    if log[j].duty.pubkey != pubkey { j := LastForIsLatest(log[..j], pubkey, i); }
  }

  lemma Grow(log: seq<Win>, w: Win)
    ensures forall slot :: LastAt(log + [w], slot) == if w.Slot() == slot then Some(w) else LastAt(log, slot)
    ensures forall pk :: LastFor(log + [w], pk) == if w.duty.pubkey == pk then Some(w) else LastFor(log, pk)
  {
    assert (log + [w])[..|log|] == log;
  }
}
