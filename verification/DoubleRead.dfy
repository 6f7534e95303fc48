/** The retriever reads the best bid twice: once to sign a header, once for the payload it sends along. */
module DoubleRead {
  import opened Entities
  import opened InterleavedRelay
  import opened WinLog
  import opened Agreement

  /** From any state, without eviction, the cached bid of a slot is the last one accepted since, or the
      one that was there; it never loses value and gains some whenever it changes. */
  lemma {:induction false} BestSince(env: Env, s: System, events: seq<Event>, slot: U64)
    requires NoEviction(events) && slot in s.best
    ensures var s', since := Run(env, s, events), LastAt(Won(env, s, events), slot);
            && slot in s'.best
            && s'.best[slot] == (if since.None? then s.best[slot] else since.value.bid)
            && (since.Some? ==> s'.best[slot].message.value > s.best[slot].message.value)
  {
    if events != [] {
      var before, e := events[..|events| - 1], events[|events| - 1];
      BestSince(env, s, before, slot);
      var m := Run(env, s, before);
      var won := Won(env, s, before);
      if WonBy(m, e) == [] { assert won + WonBy(m, e) == won; } else { Grow(won, WonBy(m, e)[0]); }
      if e.Advance? && e.task < |m.tasks| { TouchesOnlyItsOwn(env, m, e.task); } else { LeavesStoresAlone(env, m, e); }
    }
  }

  ghost predicate Waits(events: seq<Event>, t: nat) {
    forall i :: 0 <= i < |events| ==> events[i] != Advance(t)
  }

  /** A task that is not a duty refresh moves only on its own steps. */
  lemma {:induction false} TaskWaits(env: Env, s: System, events: seq<Event>, t: nat)
    requires Waits(events, t) && t < |s.tasks| && !s.tasks[t].Syncing?
    ensures t < |Run(env, s, events).tasks| && Run(env, s, events).tasks[t] == s.tasks[t]
  {
    if events != [] {
      var before, e := events[..|events| - 1], events[|events| - 1];
      TaskWaits(env, s, before, t);
      var m := Run(env, s, before);
      if e.Advance? && e.task < |m.tasks| { OthersStand(env, m, e.task); } else { LeavesStoresAlone(env, m, e); }
    }
  }

  /** Whatever happens between the two reads, evictions aside, the payload sent comes from a bid worth
      at least the one whose header was signed.  It is that very bid exactly when its slot accepted
      none in between, and otherwise the last accepted one, worth strictly more. */
  lemma PayloadIsAtLeastTheHeader(env: Env, s: System, between: seq<Event>, t: nat)
    requires t < |s.tasks| && s.tasks[t].Retrieving? && s.tasks[t].retrievePc.AtBest?
    requires AdvanceTask(env, s, t).tasks[t].retrievePc.AtSecondBest?
    requires NoEviction(between) && Waits(between, t)
    ensures var slot, first := s.tasks[t].slot, s.best[s.tasks[t].slot];
            var afterFirst := Step(env, s, Advance(t));
            var beforeSecond := Run(env, afterFirst, between);
            var since := LastAt(Won(env, afterFirst, between), slot);
            && slot in beforeSecond.best && t < |beforeSecond.tasks|
            && var second := beforeSecond.best[slot];
            && Step(env, beforeSecond, Advance(t)).tasks
               == beforeSecond.tasks[t := s.tasks[t].(retrievePc := Retrieved(first, Some(second)))]
            && second.message.value >= first.message.value
            && (since.None? ==> second == first)
            && (since.Some? ==> second == since.value.bid && second.message.value > first.message.value)
  {
    var afterFirst := Step(env, s, Advance(t));
    BestSince(env, afterFirst, between, s.tasks[t].slot);
    TaskWaits(env, afterFirst, between, t);
  }
}
