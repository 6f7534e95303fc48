/** Refreshing duties once an epoch keeps the next slot's proposer known (crates/entity/src/head_slot.rs,
    crates/app/src/relay_service.rs). */
module DutyCoverage {
  import opened Entities
  import opened Datastore
  import opened DutySync

  /** What the beacon node would answer for each epoch. */
  type Beacon = U64 -> seq<ProposerDuty>

  ghost predicate DistinctSlots(duties: seq<ProposerDuty>) {
    forall i, j :: 0 <= i < j < |duties| ==> duties[i].slot != duties[j].slot
  }

  /** Exactly one duty for each slot of the epoch, and no other. */
  ghost predicate Complete(duties: seq<ProposerDuty>, epoch: nat, N: nat)
    requires N > 0
  {
    && DistinctSlots(duties)
    && (forall d :: d in duties ==> Epoch(d.slot, N) == epoch)
    && (forall slot: U64 :: Epoch(slot, N) == epoch ==> FindDuty(duties, slot).Some?)
  }

  /** The refresh slots are the second slots of the epochs, one each; an epoch of one slot has none. */
  lemma RefreshSlots(N: nat, slot: U64)
    requires N > 0
    ensures IsDutyRefreshSlot(slot, N) <==> N >= 2 && slot == Epoch(slot, N) * N + 1
  {
    assert slot == (slot / N) * N + slot % N;
  }

  /** Slots eN+2 to (e+1)N+1, the ones asked about while the head is in eN+1 to (e+1)N, lie in epoch e,
      except the last two, which are the first two of epoch e+1. */
  lemma WindowEpochs(N: nat, e: nat, slot: nat)
    requires N >= 2 && e * N + 2 <= slot <= (e + 1) * N + 1
    ensures slot / N == (if slot == (e + 1) * N || slot == (e + 1) * N + 1 then e + 1 else e)
  {
    if slot >= (e + 1) * N {
      QuotientIs(slot, N, e + 1);
    } else {
      assert (e + 1) * N == e * N + N;
      QuotientIs(slot, N, e);
    }
  }

  lemma QuotientIs(x: nat, N: nat, q: nat)
    requires N > 0 && q * N <= x < q * N + N
    ensures x / N == q
  {
    var k := x / N;
    assert x == k * N + x % N;
    if k < q { assert (k + 1) * N <= q * N by { Scale(k + 1, q, N); } }
    if k > q { assert (q + 1) * N <= k * N by { Scale(q + 1, k, N); } }
  }

  lemma Scale(a: nat, b: nat, N: nat)
    requires a <= b
    ensures a * N <= b * N
  {
  }

  /** With one duty per slot, filtering and then looking up is looking up and then filtering. */
  lemma FindInFiltered(regs: map<PublicKey, ValidatorRegistration>, duties: seq<ProposerDuty>, slot: U64)
    requires DistinctSlots(duties)
    ensures FindDuty(FilterDuties(regs, duties), slot)
         == (var d := FindDuty(duties, slot); if d.Some? && d.value.pubkey in regs then d else None)
  {
    var kept := FilterDuties(regs, duties);
    FindDutyFindsFirst(duties, slot);
    FindDutyFindsFirst(kept, slot);
    FilterKeepsRegistered(regs, duties);
    var d, k := FindDuty(duties, slot), FindDuty(kept, slot);
    if k.Some? {
      assert k.value in duties;
      var i, j :| 0 <= i < |duties| && 0 <= j < |duties| && duties[i] == k.value && d.Some? && duties[j] == d.value;
    }
  }

  /** The duty the relay should find for a slot: the beacon's, if its proposer is registered. */
  function Expected(beacon: Beacon, regs: map<PublicKey, ValidatorRegistration>, slot: U64,
                    N: nat): Option<ProposerDuty>
    requires N > 0
  {
    var d := FindDuty(beacon(Epoch(slot, N)), slot);
    if d.Some? && d.value.pubkey in regs then d else None
  }

  ghost predicate Truthful(beacon: Beacon, N: nat)
    requires N > 0
  {
    forall e: U64 :: Complete(beacon(e), e, N)
  }

  /** One duty for each slot from `first`, `count` of them. */
  function ConsecutiveDuties(key: PublicKey, first: nat, count: nat): seq<ProposerDuty>
    requires first + count <= U64_MAX + 1
    decreases count
  {
    if count == 0 then [] else [ProposerDuty(key, 0, first)] + ConsecutiveDuties(key, first + 1, count - 1)
  }

  lemma {:induction false} ConsecutiveDutiesAreComplete(key: PublicKey, first: nat, count: nat)
    requires first + count <= U64_MAX + 1
    ensures var duties := ConsecutiveDuties(key, first, count);
            && DistinctSlots(duties)
            && (forall d :: d in duties ==> first <= d.slot < first + count)
            && (forall slot: U64 :: first <= slot < first + count ==> FindDuty(duties, slot).Some?)
    decreases count
  {
    if count > 0 {
      ConsecutiveDutiesAreComplete(key, first + 1, count - 1);
      var rest := ConsecutiveDuties(key, first + 1, count - 1);
      assert ConsecutiveDuties(key, first, count)[1..] == rest;
      forall i | 0 <= i < |rest| ensures rest[i].slot != first {
        assert rest[i] in rest;
      }
    }
  }

  function Least(a: nat, b: nat): nat {
    if a < b then a else b
  }

  /** The slots of epoch e that a u64 can name. */
  function EpochDuties(key: PublicKey, N: nat, e: U64): seq<ProposerDuty> {
    var first := Least(e * N, U64_MAX + 1);
    ConsecutiveDuties(key, first, Least(N, U64_MAX + 1 - first))
  }

  /** There are truthful beacon nodes: one that names the same proposer for every slot is. */
  lemma TruthfulBeacons(key: PublicKey, N: nat)
    requires N > 0
    ensures Truthful((e: U64) => EpochDuties(key, N, e), N)
  {
    forall e: U64 ensures Complete(EpochDuties(key, N, e), e, N) {
      var first := Least(e * N, U64_MAX + 1);
      ConsecutiveDutiesAreComplete(key, first, Least(N, U64_MAX + 1 - first));
      forall slot: U64 ensures Epoch(slot, N) == e <==> e * N <= slot < e * N + N {
        assert slot == (slot / N) * N + slot % N;
        if e * N <= slot < e * N + N { QuotientIs(slot, N, e); }
      }
    }
  }

  /** Which slots a list of duties answers for, and how: those of the given epochs, as expected. */
  ghost predicate Covers(duties: seq<ProposerDuty>, epochs: set<nat>, beacon: Beacon,
                         regs: map<PublicKey, ValidatorRegistration>, N: nat)
    requires N > 0
  {
    forall slot: U64 ::
      FindDuty(duties, slot) == if Epoch(slot, N) in epochs then Expected(beacon, regs, slot, N) else None
  }

  lemma OneEpochCovers(beacon: Beacon, regs: map<PublicKey, ValidatorRegistration>, e: U64, N: nat)
    requires N > 0 && Truthful(beacon, N)
    ensures Covers(FilterDuties(regs, beacon(e)), {e as nat}, beacon, regs, N)
  {
    var duties := beacon(e);
    assert Complete(duties, e, N);
    forall slot: U64
      ensures FindDuty(FilterDuties(regs, duties), slot)
           == if Epoch(slot, N) == e then Expected(beacon, regs, slot, N) else None
    {
      FindInFiltered(regs, duties, slot);
      FindDutyFindsFirst(duties, slot);
    }
  }

  lemma TwoEpochsCover(beacon: Beacon, regs: map<PublicKey, ValidatorRegistration>, e: U64, N: nat)
    requires N > 0 && Truthful(beacon, N) && e < U64_MAX
    ensures Covers(FilterDuties(regs, beacon(e)) + FilterDuties(regs, beacon(e + 1)), {e as nat, e + 1},
                   beacon, regs, N)
  {
    var a, b := FilterDuties(regs, beacon(e)), FilterDuties(regs, beacon(e + 1));
    OneEpochCovers(beacon, regs, e, N);
    OneEpochCovers(beacon, regs, e + 1, N);
    forall slot: U64
      ensures FindDuty(a + b, slot)
           == if Epoch(slot, N) in {e as nat, e + 1} then Expected(beacon, regs, slot, N) else None
    {
      FindDutyConcat(a, b, slot);
    }
  }

  /** A refresh of epoch e: with both fetches the epochs e and e+1 are covered, with only the first e. */
  lemma RefreshCovers(st: StorageState, beacon: Beacon, e: U64, bothFetched: bool, N: nat)
    requires N > 0 && Truthful(beacon, N) && e < U64_MAX
    ensures var next := if bothFetched then Some(beacon(e + 1)) else None;
            Covers(SyncedDuties(st, Some(beacon(e)), next).duties,
                   if bothFetched then {e as nat, e + 1} else {e as nat},
                   beacon, st.registrations, N)
  {
    if bothFetched {
      TwoEpochsCover(beacon, st.registrations, e, N);
    } else {
      OneEpochCovers(beacon, st.registrations, e, N);
      assert FilterDuties(st.registrations, beacon(e)) + [] == FilterDuties(st.registrations, beacon(e));
    }
  }

  /** What reaches the relay between refreshes: head events, with the answers they would fetch, and
      validator registrations. */
  datatype Update =
    | HeadUpdate(head: U64, current: Option<seq<ProposerDuty>>, next: Option<seq<ProposerDuty>>)
    | Registered(registration: ValidatorRegistration)

  function Follow(st: StorageState, N: nat, updates: seq<Update>): StorageState
    requires N > 0
  {
    if updates == [] then st
    else
      var before := Follow(st, N, updates[..|updates| - 1]);
      match updates[|updates| - 1]
      case HeadUpdate(head, current, next) => HandleHead(before, N, head, current, next)
      case Registered(reg) => before.(registrations := before.registrations[reg.pubkey := reg])
  }

  predicate Refreshes(u: Update, N: nat)
    requires N > 0
  {
    u.HeadUpdate? && IsDutyRefreshSlot(u.head, N)
  }

  ghost predicate NoRefresh(updates: seq<Update>, N: nat)
    requires N > 0
  {
    forall i :: 0 <= i < |updates| ==> !Refreshes(updates[i], N)
  }

  /** A refresh whose first fetch succeeded, so that it stores duties. */
  predicate Syncs(u: Update, N: nat)
    requires N > 0
  {
    Refreshes(u, N) && u.current.Some?
  }

  ghost predicate NoSync(updates: seq<Update>, N: nat)
    requires N > 0
  {
    forall i :: 0 <= i < |updates| ==> !Syncs(updates[i], N)
  }

  /** The last update of a run that stored duties. */
  function LastSync(updates: seq<Update>, N: nat): (k: Option<nat>)
    requires N > 0
    ensures k.Some? ==> k.value < |updates| && Syncs(updates[k.value], N)
  {
    if updates == [] then None
    else
      var n := |updates| - 1;
      if Syncs(updates[n], N) then Some(n) else LastSync(updates[..n], N)
  }

  lemma {:induction false} LastSyncIs(updates: seq<Update>, N: nat, k: nat)
    requires N > 0 && k < |updates| && Syncs(updates[k], N) && NoSync(updates[k + 1..], N)
    ensures LastSync(updates, N) == Some(k)
  {
    var n := |updates| - 1;
    if k < n {
      assert updates[k + 1..][n - k - 1] == updates[n];
      assert updates[..n][k + 1..] == updates[k + 1..][..n - k - 1];
      LastSyncIs(updates[..n], N, k);
    }
  }

  /** The epochs a refresh got answers for. */
  function EpochsFetched(u: Update, N: nat): set<nat>
    requires N > 0 && u.HeadUpdate?
  {
    var e: nat := Epoch(u.head, N);
    if u.next.Some? then {e, e + 1} else {e}
  }

  /** Fetches of refreshes may fail, but never lie. */
  ghost predicate Honest(updates: seq<Update>, beacon: Beacon, N: nat)
    requires N > 0
  {
    forall i :: 0 <= i < |updates| && Syncs(updates[i], N) ==> HonestRefresh(updates[i], beacon, N)
  }

  ghost predicate HonestRefresh(u: Update, beacon: Beacon, N: nat)
    requires N > 0 && Syncs(u, N)
  {
    var e := Epoch(u.head, N);
    && u.current == Some(beacon(e))
    && (e < U64_MAX && u.next.Some? ==> u.next == Some(beacon(e + 1)))
  }

  lemma RefreshEpochIsSmall(head: U64, N: nat)
    requires N > 0 && IsDutyRefreshSlot(head, N)
    ensures Epoch(head, N) < U64_MAX
  {
    RefreshSlots(N, head);
    Scale(2, N, Epoch(head, N));
  }

  lemma HonestIsSynced(st: StorageState, beacon: Beacon, u: Update, N: nat)
    requires N > 0 && Syncs(u, N) && HonestRefresh(u, beacon, N) && Epoch(u.head, N) < U64_MAX
    ensures var e := Epoch(u.head, N);
            var next := if u.next.Some? then Some(beacon(e + 1)) else None;
            HandleHead(st, N, u.head, u.current, u.next)
            == SyncedDuties(st.(headSlot := u.head), Some(beacon(e)), next)
  {
  }

  lemma RefreshStores(st: StorageState, beacon: Beacon, u: Update, N: nat)
    requires N > 0 && Truthful(beacon, N) && Syncs(u, N) && HonestRefresh(u, beacon, N)
    ensures Covers(HandleHead(st, N, u.head, u.current, u.next).duties, EpochsFetched(u, N), beacon,
                   st.registrations, N)
  {
    RefreshEpochIsSmall(u.head, N);
    HonestIsSynced(st, beacon, u, N);
    RefreshCovers(st.(headSlot := u.head), beacon, Epoch(u.head, N), u.next.Some?, N);
  }

  /** What is stored, exactly, after any run from any state: heads in any order, any fetches failing, any
      refresh slots skipped.  It is what the last refresh whose first fetch succeeded stored: the duties of
      the epochs it fetched, and of no other, of the proposers registered then. */
  lemma {:induction false} StoredDutiesExactly(st: StorageState, beacon: Beacon, N: nat, updates: seq<Update>)
    requires N > 0 && Truthful(beacon, N) && Honest(updates, beacon, N)
    ensures var k, duties := LastSync(updates, N), Follow(st, N, updates).duties;
            if k.None? then duties == st.duties
            else Covers(duties, EpochsFetched(updates[k.value], N), beacon,
                        Follow(st, N, updates[..k.value]).registrations, N)
  {
    if updates != [] {
      var n := |updates| - 1;
      var before, u := Follow(st, N, updates[..n]), updates[n];
      if Syncs(u, N) {
        assert HonestRefresh(u, beacon, N);
        RefreshStores(before, beacon, u, N);
      } else {
        StoredDutiesExactly(st, beacon, N, updates[..n]);
        var k := LastSync(updates, N);
        if k.Some? { assert updates[..n][..k.value] == updates[..k.value]; }
      }
    }
  }

  /** When a slot is known, exactly: a relay that starts without duties finds one for it if and only if
      some refresh got its first answer, the last such refresh fetched the slot's epoch, and the slot's
      proposer was registered then; and what it finds is the beacon node's duty. */
  lemma SlotIsKnownExactly(st: StorageState, beacon: Beacon, N: nat, updates: seq<Update>, slot: U64)
    requires N > 0 && Truthful(beacon, N) && Honest(updates, beacon, N) && st.duties == []
    ensures var k, found := LastSync(updates, N), FindDuty(Follow(st, N, updates).duties, slot);
            var named := FindDuty(beacon(Epoch(slot, N)), slot);
            && named.Some?
            && (found.Some? <==>
                 && k.Some?
                 && Epoch(slot, N) in EpochsFetched(updates[k.value], N)
                 && named.value.pubkey in Follow(st, N, updates[..k.value]).registrations)
            && (found.Some? ==> found == named)
  {
    StoredDutiesExactly(st, beacon, N, updates);
    assert Complete(beacon(Epoch(slot, N)), Epoch(slot, N), N);
  }

  lemma {:induction false} FollowConcat(st: StorageState, N: nat, a: seq<Update>, b: seq<Update>)
    requires N > 0
    ensures Follow(st, N, a + b) == Follow(Follow(st, N, a), N, b)
  {
    if b == [] {
      assert a + b == a;
    } else {
      var n := |b| - 1;
      assert (a + b)[..|a + b| - 1] == a + b[..n];
      FollowConcat(st, N, a, b[..n]);
    }
  }

  /** Until a refresh gets its first answer the stored duties do not change. */
  lemma {:induction false} DutiesStand(st: StorageState, N: nat, updates: seq<Update>)
    requires N > 0 && NoSync(updates, N)
    ensures Follow(st, N, updates).duties == st.duties
  {
    if updates != [] {
      assert !Syncs(updates[|updates| - 1], N);
      DutiesStand(st, N, updates[..|updates| - 1]);
    }
  }

  /** The refresh slot that serves the questions asked at head h. */
  function ServingRefresh(h: U64, N: nat): nat
    requires N > 0 && h > 0
  {
    ((h - 1) / N) * N + 1
  }

  lemma ServingWindow(h: U64, N: nat)
    requires N >= 2 && h > 0
    ensures var e, r := (h - 1) / N, ServingRefresh(h, N);
            && e * N + 1 == r <= h <= (e + 1) * N && e < U64_MAX
            && Epoch(r, N) == e && IsDutyRefreshSlot(r, N)
  {
    var e, r := (h - 1) / N, ServingRefresh(h, N);
    assert h - 1 == e * N + (h - 1) % N;
    assert (e + 1) * N == e * N + N;
    QuotientIs(r, N, e);
    RefreshSlots(N, r);
    assert 2 * e <= e * N by { Scale(2, N, e); }
  }

  lemma OnlyServingRefresh(h: U64, N: nat, s: U64)
    requires N >= 2 && h > 0 && ServingRefresh(h, N) <= s <= h && IsDutyRefreshSlot(s, N)
    ensures s == ServingRefresh(h, N)
  {
    ServingWindow(h, N);
    var e := (h - 1) / N;
    RefreshSlots(N, s);
    assert (e + 1) * N == e * N + N;
    if s < (e + 1) * N { QuotientIs(s, N, e); } else { QuotientIs(s, N, e + 1); }
  }

  ghost predicate HeadsClimb(updates: seq<Update>) {
    forall i, j :: 0 <= i < j < |updates| && updates[i].HeadUpdate? && updates[j].HeadUpdate?
        ==> updates[i].head <= updates[j].head
  }

  /** Every refresh along the run gets the beacon's answers. */
  ghost predicate FetchesSucceed(updates: seq<Update>, beacon: Beacon, N: nat)
    requires N > 0
  {
    forall i :: 0 <= i < |updates| && Refreshes(updates[i], N) && Epoch(updates[i].head, N) < U64_MAX ==>
      && updates[i].current == Some(beacon(Epoch(updates[i].head, N)))
      && updates[i].next == Some(beacon(Epoch(updates[i].head, N) + 1))
  }

  lemma {:induction false} LastRefresh(updates: seq<Update>, N: nat, k: nat) returns (i: nat)
    requires N > 0 && k < |updates| && Refreshes(updates[k], N)
    ensures k <= i < |updates| && Refreshes(updates[i], N) && NoRefresh(updates[i + 1..], N)
    decreases |updates| - k
  {
    if j :| k < j < |updates| && Refreshes(updates[j], N) {
      i := LastRefresh(updates, N, j);
    } else {
      i := k;
    }
  }

  /** A refresh of epoch e and whatever follows it until the next that stores: each slot of the window is
      answered. */
  lemma CoveredSince(st: StorageState, beacon: Beacon, N: nat, e: U64, later: seq<Update>, slot: U64)
    requires N >= 2 && Truthful(beacon, N) && NoSync(later, N) && e < U64_MAX
    requires e * N + 2 <= slot <= (e + 1) * N + 1
    ensures Follow(SyncedDuties(st, Some(beacon(e)), Some(beacon(e + 1))), N, later).duties
         == SyncedDuties(st, Some(beacon(e)), Some(beacon(e + 1))).duties
    ensures FindDuty(SyncedDuties(st, Some(beacon(e)), Some(beacon(e + 1))).duties, slot)
            == Expected(beacon, st.registrations, slot, N)
  {
    RefreshCovers(st, beacon, e, true, N);
    DutiesStand(SyncedDuties(st, Some(beacon(e)), Some(beacon(e + 1))), N, later);
    WindowEpochs(N, e, slot);
  }

  /** The last refresh of the run is a visit of the slot that serves the last head. */
  lemma LastRefreshServes(updates: seq<Update>, N: nat, h: U64, visited: nat) returns (refresh: nat)
    requires N >= 2 && HeadsClimb(updates)
    requires 0 < h && updates != [] && updates[|updates| - 1].HeadUpdate? && updates[|updates| - 1].head == h
    requires visited < |updates| && updates[visited].HeadUpdate? && updates[visited].head == ServingRefresh(h, N)
    ensures refresh < |updates| && updates[refresh].HeadUpdate? && updates[refresh].head == ServingRefresh(h, N)
    ensures NoRefresh(updates[refresh + 1..], N)
  {
    ServingWindow(h, N);
    refresh := LastRefresh(updates, N, visited);
    assert updates[visited].head <= updates[refresh].head <= h;
    OnlyServingRefresh(h, N, updates[refresh].head);
  }

  lemma SuccessIsHonest(updates: seq<Update>, beacon: Beacon, N: nat)
    requires N > 0 && FetchesSucceed(updates, beacon, N)
    ensures Honest(updates, beacon, N)
  {
    forall i | 0 <= i < |updates| && Syncs(updates[i], N) ensures HonestRefresh(updates[i], beacon, N) {
      RefreshEpochIsSmall(updates[i].head, N);
    }
  }

  lemma LastRefreshStores(updates: seq<Update>, beacon: Beacon, N: nat, k: nat)
    requires N > 0 && FetchesSucceed(updates, beacon, N)
    requires k < |updates| && Refreshes(updates[k], N) && NoRefresh(updates[k + 1..], N)
    ensures Honest(updates, beacon, N) && LastSync(updates, N) == Some(k)
    ensures updates[k].next.Some?
  {
    RefreshEpochIsSmall(updates[k].head, N);
    SuccessIsHonest(updates, beacon, N);
    LastSyncIs(updates, N, k);
  }

  lemma StoredSince(st: StorageState, beacon: Beacon, N: nat, updates: seq<Update>, k: nat)
    requires N > 0 && Truthful(beacon, N) && Honest(updates, beacon, N) && LastSync(updates, N) == Some(k)
    ensures Covers(Follow(st, N, updates).duties, EpochsFetched(updates[k], N), beacon,
                   Follow(st, N, updates[..k]).registrations, N)
  {
    StoredDutiesExactly(st, beacon, N, updates);
  }

  /** When every refresh succeeds, the last one covers its epoch and the next, and no other. */
  lemma CoveredByLastRefresh(st: StorageState, beacon: Beacon, N: nat, updates: seq<Update>, k: nat)
    requires N > 0 && Truthful(beacon, N) && FetchesSucceed(updates, beacon, N)
    requires k < |updates| && Refreshes(updates[k], N) && NoRefresh(updates[k + 1..], N)
    ensures Covers(Follow(st, N, updates).duties, EpochsFetched(updates[k], N), beacon,
                   Follow(st, N, updates[..k]).registrations, N)
    ensures updates[k].next.Some?
  {
    LastRefreshStores(updates, beacon, N, k);
    StoredSince(st, beacon, N, updates, k);
  }

  /** The refresh slot that serves head h is one, and the slot after h is of its epoch or the next. */
  lemma ServedEpoch(h: U64, N: nat)
    requires N >= 2 && 0 < h < U64_MAX
    ensures var r := ServingRefresh(h, N);
            r <= h && IsDutyRefreshSlot(r, N) && Epoch(r, N) <= Epoch(h + 1, N) <= Epoch(r, N) + 1
  {
    ServingWindow(h, N);
    WindowEpochs(N, (h - 1) / N, h + 1);
  }

  /** Along any run of head events and registrations, from any state: if heads never go back, every
      refresh fetches both epochs, and the run has visited the refresh slot that serves its last head h,
      then the lookup for h+1 gives exactly the beacon's duty if its proposer was registered when that
      slot was last visited, and nothing otherwise. */
  lemma NextSlotIsCovered(st: StorageState, beacon: Beacon, N: nat, updates: seq<Update>, h: U64, visited: nat)
    returns (refresh: nat)
    requires N >= 2 && Truthful(beacon, N)
    requires HeadsClimb(updates) && FetchesSucceed(updates, beacon, N)
    requires 0 < h < U64_MAX && updates != [] && updates[|updates| - 1].HeadUpdate? && updates[|updates| - 1].head == h
    requires visited < |updates| && updates[visited].HeadUpdate? && updates[visited].head == ServingRefresh(h, N)
    ensures refresh < |updates| && updates[refresh].HeadUpdate? && updates[refresh].head == ServingRefresh(h, N)
    ensures FindDuty(Follow(st, N, updates).duties, h + 1)
         == Expected(beacon, Follow(st, N, updates[..refresh]).registrations, h + 1, N)
  {
    refresh := LastRefreshServes(updates, N, h, visited);
    ServedEpoch(h, N);
    CoveredByLastRefresh(st, beacon, N, updates, refresh);
    assert Epoch(h + 1, N) in EpochsFetched(updates[refresh], N);
  }

  lemma DutiesOfFirst(st: StorageState, N: nat, at: Update, later: seq<Update>)
    requires N > 0 && at.HeadUpdate? && NoSync(later, N)
    ensures Follow(st, N, [at] + later).duties == HandleHead(st, N, at.head, at.current, at.next).duties
  {
    FollowConcat(st, N, [at], later);
    DutiesStand(Follow(st, N, [at]), N, later);
    assert [at][..0] == [];
    assert Follow(st, N, [at]) == HandleHead(st, N, at.head, at.current, at.next);
  }

  /** One failed fetch costs exactly two slots.  Whether the fetch of the next epoch fails at the refresh
      of epoch e, or the fetch of epoch e fails there and the duties of the refresh before it stay,
      while the head is in eN+1 to (e+1)N the next slot is covered unless it is (e+1)N or (e+1)N+1.  Later
      refreshes that fail change nothing about it. */
  lemma FailedFetchLosesTwoSlots(st: StorageState, beacon: Beacon, N: nat, e: U64, later: seq<Update>, nextFailed: bool,
                                 regs: map<PublicKey, ValidatorRegistration>, h: U64)
    requires N >= 2 && Truthful(beacon, N) && NoSync(later, N)
    requires e < U64_MAX && e * N + 1 <= h <= (e + 1) * N && h < U64_MAX
    requires if nextFailed then regs == st.registrations
             else e > 0 && Covers(st.duties, {(e - 1) as nat, e}, beacon, regs, N)
    ensures var at := HeadUpdate(e * N + 1, if nextFailed then Some(beacon(e)) else None, None);
            var found := FindDuty(Follow(st, N, [at] + later).duties, h + 1);
            && (h + 1 == (e + 1) * N || h + 1 == (e + 1) * N + 1 ==> found == None)
            && (h + 1 != (e + 1) * N && h + 1 != (e + 1) * N + 1 ==> found == Expected(beacon, regs, h + 1, N))
  {
    var at := HeadUpdate(e * N + 1, if nextFailed then Some(beacon(e)) else None, None);
    QuotientIs(e * N + 1, N, e);
    RefreshSlots(N, e * N + 1);
    DutiesOfFirst(st, N, at, later);
    WindowEpochs(N, e, h + 1);
    if nextFailed { RefreshCovers(st.(headSlot := at.head), beacon, e, false, N); }
  }

  lemma SkippedSlots(N: nat, e: U64, r: U64, h: U64)
    requires N >= 3 && r == e * N + 1 && h + 1 == (e + 2) * N && h < U64_MAX
    ensures r < h && e < U64_MAX
    ensures IsDutyRefreshSlot(r, N) && Epoch(r, N) == e
    ensures !IsDutyRefreshSlot(h, N) && Epoch(h + 1, N) == e + 2
  {
    assert (e + 2) * N == e * N + 2 * N && (e + 1) * N == e * N + N;
    QuotientIs(r, N, e);
    QuotientIs(h, N, e + 1);
    QuotientIs(h + 1, N, e + 2);
    RefreshSlots(N, r);
    RefreshSlots(N, h);
    RefreshEpochIsSmall(r, N);
  }

  lemma OneRefresh(beacon: Beacon, N: nat, first: Update, second: Update)
    requires N > 0 && Refreshes(first, N) && second.HeadUpdate? && !Refreshes(second, N)
    requires Epoch(first.head, N) < U64_MAX
    requires first.current == Some(beacon(Epoch(first.head, N))) && first.next == Some(beacon(Epoch(first.head, N) + 1))
    ensures FetchesSucceed([first, second], beacon, N) && NoRefresh([first, second][1..], N)
  {
    assert [first, second][1..] == [second];
  }

  /** An empty refresh slot costs slots without any fetch failing.  The refresh of epoch e, at its slot r,
      gets both answers, no block is seen in the refresh slot of epoch e+1, heads climb; then at h, the last
      slot of epoch e+1, the next slot is unknown. */
  lemma SkippedRefreshLosesSlot(st: StorageState, beacon: Beacon, N: nat, e: U64, r: U64, h: U64,
                                current: Option<seq<ProposerDuty>>, next: Option<seq<ProposerDuty>>)
    requires N >= 3 && Truthful(beacon, N)
    requires r == e * N + 1 && h + 1 == (e + 2) * N && h < U64_MAX && e < U64_MAX
    ensures var updates := [HeadUpdate(r, Some(beacon(e)), Some(beacon(e + 1))), HeadUpdate(h, current, next)];
            && HeadsClimb(updates) && FetchesSucceed(updates, beacon, N)
            && FindDuty(Follow(st, N, updates).duties, h + 1) == None
  {
    var updates := [HeadUpdate(r, Some(beacon(e)), Some(beacon(e + 1))), HeadUpdate(h, current, next)];
    SkippedSlots(N, e, r, h);
    OneRefresh(beacon, N, updates[0], updates[1]);
    CoveredByLastRefresh(st, beacon, N, updates, 0);
  }
}
