/** Whole-operation guarantees of the outbox: storage, chain and capacity invariants, and the
    exact agreement of the batch pre-checks with the main loop. */
module OutboxProperties {
  import opened Common
  import opened OrderedMaps
  import opened Outboxes
  import opened OutboxChain

  // ---- storage ----

  lemma {:induction false} EvictKeepsOrder(max: nat, d: OrderedMap<string, Receipt>)
    requires d.Valid()
    ensures Evict(max, d).Valid() && Evict(max, d).Size() <= max
    ensures forall id :: id in Evict(max, d).entries ==> id in d.entries && Evict(max, d).entries[id] == d.entries[id]
    ensures d.Size() <= max ==> Evict(max, d) == d
    decreases |d.order|
  {
    if |d.order| > max {
      var rest := OrderedMap(d.order[1..], d.entries - {d.order[0]});
      assert d.order == [d.order[0]] + rest.order;
      EvictKeepsOrder(max, rest);
    }
  }

  /** Remembering a new receipt: bounded, and only that id can be new. */
  lemma RememberIsBounded(max: nat, d: OrderedMap<string, Receipt>, id: string, r: Receipt)
    requires d.Valid() && 0 < max
    ensures var after := RememberDispatched(max, d, id, r);
            && after.Valid()
            && after.Size() <= max
            && after.entries.Keys <= d.entries.Keys + {id}
  {
    DeleteValid(d, id);
    SetValid(d.Delete(id), id, r);
    EvictKeepsOrder(max, d.Delete(id).Set(id, r));
  }

  /** Refreshing a present receipt evicts nothing. */
  lemma RefreshEvictsNothing(max: nat, d: OrderedMap<string, Receipt>, id: string)
    requires d.Valid() && d.Size() <= max && d.Has(id)
    ensures RememberDispatched(max, d, id, d.entries[id]).entries == d.entries
  {
    DeleteValid(d, id);
    var moved := d.Delete(id).Set(id, d.entries[id]);
    SetValid(d.Delete(id), id, d.entries[id]);
    EvictKeepsOrder(max, moved);
    assert moved.entries == d.entries;
  }

  lemma AddOneKeepsStorage(l: Limits, s: State, c: Candidate)
    requires ValidLimits(l) && StorageInv(l, s) && AddOne(l, s, c).Ok?
    ensures StorageInv(l, AddOne(l, s, c).value)
    ensures AddOne(l, s, c).value.dispatched.entries == s.dispatched.entries
  {
    var id := c.event.eventId;
    if s.dispatched.Has(id) {
      RefreshEvictsNothing(l.maxRetained, s.dispatched, id);
      RememberIsBounded(l.maxRetained, s.dispatched, id, s.dispatched.entries[id]);
    } else if s.dead.Has(id) {
      DeleteValid(s.dead, id);
      SetValid(s.pending, id, s.dead.entries[id].(attempts := 0, lastError := None));
    } else {
      SetValid(s.pending, id, NextRecord(s, c));
    }
  }

  // ---- whole adds ----

  /** The history after the loop, following the accepted candidates. */
  function LoopHistory(l: Limits, s: State, h: History, cs: seq<Candidate>): History {
    if |cs| == 0 then h else
    var before := AddLoop(l, s, cs[..|cs| - 1]);
    var past := LoopHistory(l, s, h, cs[..|cs| - 1]);
    if before.error.Some? || AddOne(l, before.state, cs[|cs| - 1]).Err? then past
    else NextHistory(before.state, past, cs[|cs| - 1])
  }

  /** No candidate moves an event that is pending now to another version. */
  ghost predicate NoRefresh(s: State, cs: seq<Candidate>) {
    forall i :: 0 <= i < |cs| ==> !IsVersionRefresh(s, cs[i])
  }

  /** What is on record for an event id, in storage or earlier in the batch. */
  function OnRecord(s: State, seen: map<string, Receipt>, id: string): Option<Receipt> {
    if s.pending.Has(id) then Some(Receipt(s.pending.entries[id].source, Unlinked(s.pending.entries[id].position)))
    else if s.dead.Has(id) then Some(Receipt(s.dead.entries[id].source, Unlinked(s.dead.entries[id].position)))
    else if id in seen then Some(seen[id])
    else None
  }

  ghost predicate MatchesRecord(m: OrderedMap<string, Record>, s: State, seen: map<string, Receipt>) {
    forall id :: id in m.entries ==>
      OnRecord(s, seen, id) == Some(Receipt(m.entries[id].source, Unlinked(m.entries[id].position)))
  }

  /** The loop's stored records agree with the state before the call and the batch so far. */
  ghost predicate LoopAgrees(s: State, seen: map<string, Receipt>, now: State) {
    && now.dispatched.entries == s.dispatched.entries
    && MatchesRecord(now.pending, s, seen)
    && MatchesRecord(now.dead, s, seen)
  }

  lemma CandidateMatchesRecord(s: State, seen: map<string, Receipt>, c: Candidate)
    requires BatchMismatch(s, seen, c).None? && !IsVersionRefresh(s, c)
    requires s.pending.entries.Keys !! s.dead.entries.Keys
    requires !s.dispatched.Has(c.event.eventId)
    ensures var on := OnRecord(s, seen, c.event.eventId);
            on.Some? ==> on.value == Receipt(c.source, c.position)
  {
  }

  lemma StepHasNoMismatch(s: State, seen: map<string, Receipt>, now: State, c: Candidate)
    requires BatchMismatch(s, seen, c).None? && !IsVersionRefresh(s, c)
    requires s.pending.entries.Keys !! s.dead.entries.Keys
    requires LoopAgrees(s, seen, now)
    ensures StoredMismatch(now, c).None?
    ensures !IsVersionRefresh(now, c)
  {
    var id := c.event.eventId;
    if !now.dispatched.Has(id) {
      CandidateMatchesRecord(s, seen, c);
      assert now.pending.Has(id) ==> OnRecord(s, seen, id) == Some(Receipt(c.source, c.position));
      assert now.dead.Has(id) ==> OnRecord(s, seen, id) == Some(Receipt(c.source, c.position));
    }
  }

  lemma StepAgrees(l: Limits, s: State, seen: map<string, Receipt>, now: State, c: Candidate)
    requires ValidLimits(l) && StorageInv(l, now)
    requires s.pending.entries.Keys !! s.dead.entries.Keys
    requires BatchMismatch(s, seen, c).None? && !IsVersionRefresh(s, c)
    requires LoopAgrees(s, seen, now) && AddOne(l, now, c).Ok?
    ensures var id := c.event.eventId;
            var seen' := if id in seen then seen else seen[id := Receipt(c.source, c.position)];
            LoopAgrees(s, seen', AddOne(l, now, c).value)
  {
    var id := c.event.eventId;
    var seen' := if id in seen then seen else seen[id := Receipt(c.source, c.position)];
    var next := AddOne(l, now, c).value;
    assert next.dispatched.entries == s.dispatched.entries by { AddOneKeepsStorage(l, now, c); }
    assert MatchesRecord(next.pending, s, seen') by {
      forall x | x in next.pending.entries
        ensures OnRecord(s, seen', x)
                == Some(Receipt(next.pending.entries[x].source, Unlinked(next.pending.entries[x].position)))
      {
        StepRecord(l, s, seen, now, c, x);
      }
    }
    assert MatchesRecord(next.dead, s, seen') by {
      StepDead(l, now, c);
      assert MatchesRecord(now.dead, s, seen);
    }
  }

  /** Adding never creates a dead letter. */
  lemma StepDead(l: Limits, now: State, c: Candidate)
    requires AddOne(l, now, c).Ok?
    ensures var next := AddOne(l, now, c).value;
            forall x :: x in next.dead.entries ==> x in now.dead.entries && next.dead.entries[x] == now.dead.entries[x]
  {
  }

  lemma StepRecord(l: Limits, s: State, seen: map<string, Receipt>, now: State, c: Candidate, x: string)
    requires s.pending.entries.Keys !! s.dead.entries.Keys
    requires BatchMismatch(s, seen, c).None? && !IsVersionRefresh(s, c)
    requires LoopAgrees(s, seen, now) && AddOne(l, now, c).Ok?
    requires x in AddOne(l, now, c).value.pending.entries
    ensures var id := c.event.eventId;
            var seen' := if id in seen then seen else seen[id := Receipt(c.source, c.position)];
            var r := AddOne(l, now, c).value.pending.entries[x];
            OnRecord(s, seen', x) == Some(Receipt(r.source, Unlinked(r.position)))
  {
    var id := c.event.eventId;
    if x == id && !now.dispatched.Has(id) {
      CandidateMatchesRecord(s, seen, c);
      if !now.dead.Has(id) {
        assert Unlinked(NextRecord(now, c).position) == c.position;
      }
    }
  }

  // ---- the pre-checks simulate the loop ----

  /** An event already on record is where the simulation expects it: nothing moves. */
  lemma KnownPositionIsSettled(now: State, h: History, c: Candidate)
    requires HeadsAreLast(now.cursors, h)
    requires FinalizedCandidate(h, c.source, c.event.eventId, c.position)
    ensures SimulateOne(now.cursors, c) == Ok(now.cursors)
    ensures HeadConflict(now.cursors, c).None?
  {
    HeadIsNewest(now, h, c.source, c.event.eventId, c.position);
    if c.position.aggregateVersion == now.cursors[c.source].aggregateVersion {
      assert WithOwner(now.cursors, c) == now.cursors;
    }
  }

  lemma KnownCandidateIsFinalized(now: State, h: History, c: Candidate)
    requires ChainInv(now, h) && IsKnown(now, c.event.eventId)
    requires StoredMismatch(now, c).None? && !IsVersionRefresh(now, c)
    ensures FinalizedCandidate(h, c.source, c.event.eventId, c.position)
  {
    hide HeadsAreLast;
    var id := c.event.eventId;
    if now.dispatched.Has(id) {
    } else if now.dead.Has(id) {
      FinalizedForgetsLink(h, c.source, id, now.dead.entries[id].position);
    } else {
      FinalizedForgetsLink(h, c.source, id, now.pending.entries[id].position);
    }
  }

  lemma FreshIsSimulated(l: Limits, now: State, c: Candidate)
    requires IsFresh(now, c) && SimulateOne(now.cursors, c).Ok?
    ensures AddOne(l, now, c).Ok? ==> AddOne(l, now, c).value.cursors == SimulateOne(now.cursors, c).value
    ensures AddOne(l, now, c).Err? ==> AddOne(l, now, c).error == StaleHead
  {
    AddOneOnFresh(l, now, c);
    assert StoredMismatch(now, c).None?;
  }

  /** Once the checks pass, the loop can only reject a stale head, and it moves the source
      heads exactly as the simulation did. */
  lemma StepIsSimulated(l: Limits, now: State, h: History, c: Candidate)
    requires ChainInv(now, h)
    requires StoredMismatch(now, c).None? && !IsVersionRefresh(now, c)
    requires SimulateOne(now.cursors, c).Ok?
    ensures AddOne(l, now, c).Ok? ==> AddOne(l, now, c).value.cursors == SimulateOne(now.cursors, c).value
    ensures AddOne(l, now, c).Err? ==> AddOne(l, now, c).error == StaleHead
  {
    if IsFresh(now, c) {
      FreshIsSimulated(l, now, c);
    } else {
      KnownCandidateIsFinalized(now, h, c);
      KnownPositionIsSettled(now, h, c);
      if AddOne(l, now, c).Ok? {
        AddOneOnKnown(l, now, c);
      }
    }
  }

  ghost predicate LoopInv(l: Limits, s: State, h: History, cs: seq<Candidate>) {
    var r := AddLoop(l, s, cs);
    && StorageInv(l, r.state)
    && ChainInv(r.state, LoopHistory(l, s, h, cs))
    && Grows(h, LoopHistory(l, s, h, cs))
    && (r.error.Some? ==> r.error.value == StaleHead)
    && (r.error.None? ==> LoopAgrees(s, FirstReceipts(cs), r.state)
                          && Simulate(s.cursors, cs) == Ok(r.state.cursors))
  }

  lemma LoopStep(l: Limits, s: State, h: History, cs: seq<Candidate>)
    requires ValidLimits(l) && |cs| > 0
    requires s.pending.entries.Keys !! s.dead.entries.Keys
    requires !IsVersionRefresh(s, cs[|cs| - 1])
    requires ReceiptPrecheck(s, cs).None? && Simulate(s.cursors, cs).Ok?
    requires LoopInv(l, s, h, cs[..|cs| - 1])
    ensures LoopInv(l, s, h, cs)
  {
    var init, c := cs[..|cs| - 1], cs[|cs| - 1];
    var before := AddLoop(l, s, init);
    var past := LoopHistory(l, s, h, init);
    if before.error.None? {
      StepHasNoMismatch(s, FirstReceipts(init), before.state, c);
      StepIsSimulated(l, before.state, past, c);
      if AddOne(l, before.state, c).Ok? {
        AddOneKeepsStorage(l, before.state, c);
        StepAgrees(l, s, FirstReceipts(init), before.state, c);
        AddOneKeepsChain(l, before.state, past, c);
        GrowsTransitive(h, past, NextHistory(before.state, past, c));
      }
    }
  }

  lemma GrowsReflexive(h: History)
    ensures Grows(h, h)
  {
  }

  lemma {:induction false} LoopKeepsInvariants(l: Limits, s: State, h: History, cs: seq<Candidate>)
    requires ValidLimits(l) && StorageInv(l, s) && ChainInv(s, h) && NoRefresh(s, cs)
    requires ReceiptPrecheck(s, cs).None? && Simulate(s.cursors, cs).Ok?
    ensures LoopInv(l, s, h, cs)
  {
    if |cs| == 0 {
      GrowsReflexive(h);
    } else {
      var init := cs[..|cs| - 1];
      assert forall i :: 0 <= i < |init| ==> init[i] == cs[i];
      assert NoRefresh(s, init);
      LoopKeepsInvariants(l, s, h, init);
      LoopStep(l, s, h, cs);
    }
  }

  // ---- capacity ----

  ghost predicate LoopGrowth(s: State, cs: seq<Candidate>, now: State) {
    && now.pending.entries.Keys + now.dead.entries.Keys
       <= s.pending.entries.Keys + s.dead.entries.Keys + NewRecordIds(s, cs)
    && now.cursors.Keys <= s.cursors.Keys + NewSources(s, cs)
    && s.cursors.Keys <= now.cursors.Keys
    && s.pending.entries.Keys + s.dead.entries.Keys <= now.pending.entries.Keys + now.dead.entries.Keys
    && now.dispatched.entries == s.dispatched.entries
  }

  lemma NewGrow(s: State, cs: seq<Candidate>)
    requires |cs| > 0
    ensures NewRecordIds(s, cs[..|cs| - 1]) <= NewRecordIds(s, cs)
    ensures NewSources(s, cs[..|cs| - 1]) <= NewSources(s, cs)
    ensures var c := cs[|cs| - 1];
            !IsKnown(s, c.event.eventId) ==>
              && c.event.eventId in NewRecordIds(s, cs)
              && (c.source !in s.cursors ==> c.source in NewSources(s, cs))
  {
    var c := cs[|cs| - 1];
    assert c in cs;
    forall x | x in cs[..|cs| - 1] ensures x in cs {
    }
  }

  lemma StepGrowth(l: Limits, now: State, c: Candidate)
    requires AddOne(l, now, c).Ok?
    ensures var next := AddOne(l, now, c).value;
            && now.pending.entries.Keys + now.dead.entries.Keys <= next.pending.entries.Keys + next.dead.entries.Keys
            && next.pending.entries.Keys + next.dead.entries.Keys
               <= now.pending.entries.Keys + now.dead.entries.Keys + (if IsFresh(now, c) then {c.event.eventId} else {})
            && now.cursors.Keys <= next.cursors.Keys
            && (IsFresh(now, c) ==> next.cursors.Keys <= now.cursors.Keys + {c.source})
            && (!IsFresh(now, c) ==> next.cursors.Keys == now.cursors.Keys)
  {
  }

  /** Holds for any batch, version refreshes included. */
  lemma {:induction false} LoopStaysWithinNewIds(l: Limits, s: State, cs: seq<Candidate>)
    requires ValidLimits(l) && StorageInv(l, s)
    ensures StorageInv(l, AddLoop(l, s, cs).state)
    ensures LoopGrowth(s, cs, AddLoop(l, s, cs).state)
  {
    if |cs| > 0 {
      var init, c := cs[..|cs| - 1], cs[|cs| - 1];
      var before := AddLoop(l, s, init);
      LoopStaysWithinNewIds(l, s, init);
      NewGrow(s, cs);
      if before.error.None? && AddOne(l, before.state, c).Ok? {
        AddOneKeepsStorage(l, before.state, c);
        StepGrowth(l, before.state, c);
        assert IsFresh(before.state, c) ==> !IsKnown(s, c.event.eventId);
      }
    }
  }

  lemma StoredCount(l: Limits, s: State)
    requires StorageInv(l, s)
    ensures s.pending.Size() + s.dead.Size() == |s.pending.entries.Keys + s.dead.entries.Keys|
  {
    SizeIsCardinality(s.pending);
    SizeIsCardinality(s.dead);
  }

  lemma CountWithin<T>(small: set<T>, base: set<T>, extra: set<T>)
    requires small <= base + extra
    ensures |small| <= |base| + |extra|
  {
    SubsetCount(small, base + extra);
    assert base + extra == base + (extra - base);
    SubsetCount(extra - base, extra);
  }

  lemma RecordsFit(l: Limits, s: State, cs: seq<Candidate>, now: State)
    requires StorageInv(l, s) && StorageInv(l, now) && LoopGrowth(s, cs, now)
    ensures now.pending.Size() + now.dead.Size() <= s.pending.Size() + s.dead.Size() + |NewRecordIds(s, cs)|
  {
    StoredCount(l, s);
    StoredCount(l, now);
    hide StorageInv;
    CountWithin(now.pending.entries.Keys + now.dead.entries.Keys,
                s.pending.entries.Keys + s.dead.entries.Keys, NewRecordIds(s, cs));
  }

  lemma SourcesFit(s: State, cs: seq<Candidate>, now: State)
    requires LoopGrowth(s, cs, now)
    ensures |now.cursors| <= |s.cursors| + |NewSources(s, cs)|
  {
    CountWithin(now.cursors.Keys, s.cursors.Keys, NewSources(s, cs));
    assert |now.cursors| == |now.cursors.Keys| && |s.cursors| == |s.cursors.Keys|;
  }

  /** Configured record and source limits hold after every `add`, whatever the batch. */
  lemma AddKeepsCapacity(l: Limits, s: State, cs: seq<Candidate>)
    requires ValidLimits(l) && StorageInv(l, s) && WithinLimits(l, s)
    ensures StorageInv(l, Add(l, s, cs).state) && WithinLimits(l, Add(l, s, cs).state)
  {
    hide StorageInv, AddLoop, LoopGrowth, ReceiptPrecheck, Simulate, NewRecordIds, NewSources;
    if Precheck(l, s, cs).None? {
      var now := AddLoop(l, s, cs).state;
      LoopStaysWithinNewIds(l, s, cs);
      RecordsFit(l, s, cs, now);
      SourcesFit(s, cs, now);
    }
  }

  // ---- the operations ----

  ghost predicate Inv(l: Limits, s: State, h: History) {
    StorageInv(l, s) && WithinLimits(l, s) && ChainInv(s, h)
  }

  lemma EmptyIsValid(l: Limits)
    ensures Inv(l, EMPTY, map[])
  {
  }

  function AddHistory(l: Limits, s: State, h: History, cs: seq<Candidate>): History {
    if Precheck(l, s, cs).Some? then h else LoopHistory(l, s, h, cs)
  }

  /** `add` without a version refresh keeps every invariant; the only rejection that can leave
      a prefix behind is a stale head, and every other rejection changes nothing. */
  lemma AddKeepsInvariants(l: Limits, s: State, h: History, cs: seq<Candidate>)
    requires ValidLimits(l) && Inv(l, s, h) && NoRefresh(s, cs)
    ensures Inv(l, Add(l, s, cs).state, AddHistory(l, s, h, cs))
    ensures Grows(h, AddHistory(l, s, h, cs))
    ensures Precheck(l, s, cs).None? ==> Add(l, s, cs).error in {None, Some(StaleHead)}
    ensures Add(l, s, cs).error.Some? && Add(l, s, cs).error != Some(StaleHead) ==> Add(l, s, cs).state == s
  {
    AddKeepsCapacity(l, s, cs);
    if Precheck(l, s, cs).None? {
      LoopKeepsInvariants(l, s, h, cs);
      hide StorageInv, ChainInv, WithinLimits, Grows, AddLoop, LoopHistory, LoopAgrees, NoRefresh;
    } else {
      GrowsReflexive(h);
      hide StorageInv, ChainInv, WithinLimits, Grows, NoRefresh;
    }
  }

  lemma MarkOneDispatchedStorage(l: Limits, s: State, id: string)
    requires ValidLimits(l) && StorageInv(l, s) && WithinLimits(l, s)
    ensures StorageInv(l, MarkOneDispatched(l, s, id)) && WithinLimits(l, MarkOneDispatched(l, s, id))
  {
    DeleteValid(s.pending, id);
    DeleteValid(s.dead, id);
    if s.pending.Has(id) || s.dead.Has(id) {
      var record := if s.pending.Has(id) then s.pending.entries[id] else s.dead.entries[id];
      RememberIsBounded(l.maxRetained, s.dispatched, id, Receipt(record.source, Unlinked(record.position)));
    }
  }

  lemma MarkOneDispatchedChain(l: Limits, s: State, h: History, id: string)
    requires ChainInv(s, h)
    ensures ChainInv(MarkOneDispatched(l, s, id), h)
  {
    if s.pending.Has(id) || s.dead.Has(id) {
      var record := if s.pending.Has(id) then s.pending.entries[id] else s.dead.entries[id];
      FinalizedForgetsLink(h, record.source, id, record.position);
      RememberKeepsReceipts(l.maxRetained, s.dispatched, h, id, Receipt(record.source, Unlinked(record.position)));
    }
  }

  lemma MarkOneDispatchedKeeps(l: Limits, s: State, h: History, id: string)
    requires ValidLimits(l) && Inv(l, s, h)
    ensures Inv(l, MarkOneDispatched(l, s, id), h)
  {
    MarkOneDispatchedStorage(l, s, id);
    MarkOneDispatchedChain(l, s, h, id);
  }

  lemma {:induction false} MarkDispatchedKeeps(l: Limits, s: State, h: History, ids: seq<string>)
    requires ValidLimits(l) && Inv(l, s, h)
    ensures Inv(l, MarkDispatched(l, s, ids), h)
  {
    if |ids| > 0 {
      MarkDispatchedKeeps(l, s, h, ids[..|ids| - 1]);
      MarkOneDispatchedKeeps(l, MarkDispatched(l, s, ids[..|ids| - 1]), h, ids[|ids| - 1]);
    }
  }

  lemma BecomesDead(l: Limits, s: State, id: string, record: Record)
    requires StorageInv(l, s) && s.pending.Has(id) && record.attempts == l.maxDeliveryAttempts
    ensures StorageInv(l, s.(pending := s.pending.Delete(id), dead := s.dead.Set(id, record)))
  {
    DeleteValid(s.pending, id);
    SetValid(s.dead, id, record);
  }

  lemma StaysPending(l: Limits, s: State, id: string, record: Record)
    requires StorageInv(l, s) && s.pending.Has(id) && record.attempts < l.maxDeliveryAttempts
    ensures StorageInv(l, s.(pending := s.pending.Set(id, record)))
  {
    SetValid(s.pending, id, record);
  }

  lemma MarkFailedCount(l: Limits, s: State, id: string, error: string)
    requires s.pending.Valid() && s.dead.Valid()
    requires s.pending.Has(id) ==> !s.dead.Has(id)
    ensures MarkFailed(l, s, id, error).pending.Size() + MarkFailed(l, s, id, error).dead.Size()
            == s.pending.Size() + s.dead.Size()
    ensures MarkFailed(l, s, id, error).cursors == s.cursors
  {
    if s.pending.Has(id) {
      var record := Failed(s.pending.entries[id], error);
      DeleteValid(s.pending, id);
      SetValid(s.dead, id, record);
      SetValid(s.pending, id, record);
    }
  }

  lemma MarkFailedStorage(l: Limits, s: State, id: string, error: string)
    requires ValidLimits(l) && StorageInv(l, s) && WithinLimits(l, s)
    ensures StorageInv(l, MarkFailed(l, s, id, error)) && WithinLimits(l, MarkFailed(l, s, id, error))
  {
    MarkFailedCount(l, s, id, error);
    assert s.pending.Has(id) ==> s.pending.entries[id].attempts < l.maxDeliveryAttempts;
    hide StorageInv;
    if s.pending.Has(id) {
      var record := Failed(s.pending.entries[id], error);
      if record.attempts >= l.maxDeliveryAttempts {
        BecomesDead(l, s, id, record);
      } else {
        StaysPending(l, s, id, record);
      }
    }
  }

  lemma SetKeepsRecords(m: OrderedMap<string, Record>, h: History, id: string, r: Record)
    requires RecordsFinalized(m, h)
    requires r.dispatchId == id && r.event.eventId == id && Finalized(h, r.source, id, r.position)
    ensures RecordsFinalized(m.Set(id, r), h)
    ensures RecordsFinalized(m.Delete(id), h)
  {
    hide Finalized;
  }

  lemma MarkFailedChain(l: Limits, s: State, h: History, id: string, error: string)
    requires ChainInv(s, h)
    ensures ChainInv(MarkFailed(l, s, id, error), h)
  {
    if s.pending.Has(id) {
      var record := Failed(s.pending.entries[id], error);
      assert RecordsFinalized(s.pending.Delete(id), h)
             && RecordsFinalized(s.pending.Set(id, record), h)
             && RecordsFinalized(s.dead.Set(id, record), h) by {
        SetKeepsRecords(s.pending, h, id, record);
        SetKeepsRecords(s.dead, h, id, record);
      }
      hide RecordsFinalized, ReceiptsFinalized, HeadsAreLast;
    }
  }

  lemma MarkFailedKeeps(l: Limits, s: State, h: History, id: string, error: string)
    requires ValidLimits(l) && Inv(l, s, h)
    ensures Inv(l, MarkFailed(l, s, id, error), h)
  {
    MarkFailedStorage(l, s, id, error);
    MarkFailedChain(l, s, h, id, error);
  }
}
