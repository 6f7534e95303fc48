/** The auctioneer over whole histories of offers, against an independent definition of "best":
    the first offer of a slot that no offer of the slot exceeds. */
module AuctionHistory {
  import opened Entities
  import opened Datastore

  datatype Attempt = Attempt(slot: U64, bid: BidSubmission)

  function Replay(history: seq<Attempt>): BestBids {
    if history == [] then map[]
    else
      var last := history[|history| - 1];
      Offer(Replay(history[..|history| - 1]), last.slot, last.bid)
  }

  predicate Won(history: seq<Attempt>, k: nat)
    requires k < |history|
  {
    Beats(Replay(history[..k]), history[k].slot, history[k].bid)
  }

  predicate IsFirstMaximum(history: seq<Attempt>, slot: U64, i: nat)
    requires i < |history|
  {
    && history[i].slot == slot
    && (forall j :: 0 <= j < |history| && history[j].slot == slot ==>
          history[j].bid.message.value <= history[i].bid.message.value)
    && (forall j :: 0 <= j < i && history[j].slot == slot ==>
          history[j].bid.message.value < history[i].bid.message.value)
  }

  predicate Offered(history: seq<Attempt>, slot: U64) {
    exists i :: 0 <= i < |history| && history[i].slot == slot
  }

  /** The cached bid of a slot is the first offer reaching the slot's maximum, and there is a
      cached bid exactly when the slot was offered one. */
  lemma {:induction false} BestIsFirstMaximum(history: seq<Attempt>, slot: U64) returns (i: nat)
    ensures Offered(history, slot) <==> slot in Replay(history)
    ensures slot in Replay(history) ==>
              i < |history| && IsFirstMaximum(history, slot, i) && Replay(history)[slot] == history[i].bid
  {
    i := 0;
    if history != [] {
      var n := |history| - 1;
      var before := history[..n];
      var k := BestIsFirstMaximum(before, slot);
      if slot in Replay(before) {
        assert history[k] == before[k] && history[k].slot == slot;
      }
      if history[n].slot == slot && Won(history, n) {
        i := n;
        if slot in Replay(before) {
          forall j | 0 <= j < n && history[j].slot == slot
            ensures history[j].bid.message.value < history[n].bid.message.value
          {
            assert before[j].bid.message.value <= before[k].bid.message.value;
          }
        } else {
          forall j | 0 <= j < n ensures history[j].slot != slot {
            assert before[j] == history[j];
          }
        }
      } else {
        i := k;
        if slot in Replay(history) {
          forall j | 0 <= j < |history| && history[j].slot == slot
            ensures history[j].bid.message.value <= history[k].bid.message.value
          {
            if j < n { assert before[j] == history[j]; }
          }
          forall j | 0 <= j < k && history[j].slot == slot
            ensures history[j].bid.message.value < history[k].bid.message.value
          {
            assert before[j] == history[j];
          }
        } else {
          forall j | 0 <= j < |history| ensures history[j].slot != slot {
            if j < n { assert before[j] == history[j]; }
          }
        }
      }
    }
  }

  /** An offer succeeds exactly when it beats every earlier offer of its slot, winning or not. */
  lemma WinsBeatAllEarlier(history: seq<Attempt>, k: nat)
    requires k < |history|
    ensures Won(history, k) <==>
            forall j :: 0 <= j < k && history[j].slot == history[k].slot
                        ==> history[j].bid.message.value < history[k].bid.message.value
  {
    var before, slot := history[..k], history[k].slot;
    var i := BestIsFirstMaximum(before, slot);
    if slot in Replay(before) {
      assert history[i] == before[i];
      forall j | 0 <= j < k && history[j].slot == slot
        ensures history[j].bid.message.value <= history[i].bid.message.value
      {
        assert before[j] == history[j];
      }
    } else {
      forall j | 0 <= j < k ensures history[j].slot != slot {
        assert before[j] == history[j];
      }
    }
  }

  function OfSlot(history: seq<Attempt>, slot: U64): seq<Attempt> {
    if history == [] then []
    else
      var n := |history| - 1;
      OfSlot(history[..n], slot) + if history[n].slot == slot then [history[n]] else []
  }

  /** Slots never affect each other: a slot's best bid is the one the auctioneer would hold had it
      been offered that slot's bids alone. */
  lemma {:induction false} SlotsAreIndependent(history: seq<Attempt>, slot: U64)
    ensures (slot in Replay(history)) <==> (slot in Replay(OfSlot(history, slot)))
    ensures slot in Replay(history) ==> Replay(history)[slot] == Replay(OfSlot(history, slot))[slot]
  {
    if history != [] {
      var n := |history| - 1;
      SlotsAreIndependent(history[..n], slot);
      var own := OfSlot(history[..n], slot);
      if history[n].slot == slot {
        assert (own + [history[n]])[..|own|] == own;
      } else {
        assert own + [] == own;
      }
    }
  }
}
