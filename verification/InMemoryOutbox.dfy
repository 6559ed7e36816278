/** The in-memory outbox itself: fields updated in place, each method proved against the pure
    functions of `Outboxes` and shown to keep the storage, capacity and chain invariants. */
module InMemoryOutboxes {
  import opened Common
  import opened OrderedMaps
  import opened Outboxes
  import opened OutboxChain
  import opened OutboxProperties
  import opened OutboxAtomicity
  import opened OutboxVerdicts

  class InMemoryOutbox {
    var pending: OrderedMap<string, Record>
    var dead: OrderedMap<string, Record>
    var sourceCursors: Cursors
    var dispatchedEventIds: OrderedMap<string, Receipt>
    const limits: Limits
    /** Every commit finalised so far, per source; meaningful until a version refresh happens. */
    ghost var history: History

    ghost predicate Valid()
      reads this
    {
      ValidLimits(limits) && StorageInv(limits, AsState()) && WithinLimits(limits, AsState())
    }

    /** The commit chain behind the stored state is intact. */
    ghost predicate Chained()
      reads this
    {
      ChainInv(AsState(), history)
    }

    function AsState(): State
      reads this
    {
      State(pending, dead, sourceCursors, dispatchedEventIds)
    }

    constructor (limits: Limits)
      requires ValidLimits(limits)
      ensures Valid() && Chained()
      ensures AsState() == EMPTY && history == map[] && this.limits == limits
    {
      this.pending := Empty();
      this.dead := Empty();
      this.sourceCursors := map[];
      this.dispatchedEventIds := Empty();
      this.limits := limits;
      this.history := map[];
    }

    method Add(events: seq<Candidate>) returns (error: Option<AddError>)
      requires Valid()
      modifies this
      ensures Valid()
      ensures AddOutcome(AsState(), error) == Outboxes.Add(limits, old(AsState()), events)
      ensures old(Chained()) && old(NoRefresh(AsState(), events)) ==>
                && Chained()
                && Grows(old(history), history)
                && (error.Some? && error != Some(StaleHead) ==> AsState() == old(AsState()))
      ensures old(HasHeads(AsState())) ==>
                && HasHeads(AsState())
                && (error.None? <==>
                      && ReceiptsAgree(old(AsState()), events) && PositionsAgree(old(sourceCursors), events)
                      && (limits.maxRecords.Some? ==> |StoredAfter(old(AsState()), events)| <= limits.maxRecords.value)
                      && (limits.maxSources.Some? ==> |SourcesAfter(old(AsState()), events)| <= limits.maxSources.value)
                      && NoneBlocked(old(AsState()), events))
                && ((error.Some? ==> AsState() == old(AsState())) <==> StopsCleanly(limits, old(AsState()), events))
      ensures error == Some(RecordCapacity) <==>
                && ReceiptsAgree(old(AsState()), events) && PositionsAgree(old(sourceCursors), events)
                && limits.maxRecords.Some? && |StoredAfter(old(AsState()), events)| > limits.maxRecords.value
    {
      hide StorageInv, WithinLimits, ChainInv, Precheck, AddLoop, Grows, NoRefresh, HasHeads, NoneBlocked, StopsCleanly;
      hide IsFirstBlocked, BlockedAt, ReceiptsAgree, PositionsAgree, StoredAfter, SourcesAfter;
      ghost var s0, h0 := AsState(), history;
      AddKeepsCapacity(limits, s0, events);
      if Chained() && NoRefresh(s0, events) {
        AddKeepsInvariants(limits, s0, h0, events);
      }
      if HasHeads(s0) {
        AddSucceedsIff(limits, s0, events);
        AllOrNothingIff(limits, s0, events);
        HeadsAreKept(limits, s0, events, [], "", "");
      }
      CapacityRefusedIff(limits, s0, events);
      error := AssertBatch(events);
      if error.None? {
        error := AddEach(events);
      }
      history := AddHistory(limits, s0, h0, events);
    }

    /** The three batch pre-checks, before anything changes. */
    method AssertBatch(events: seq<Candidate>) returns (error: Option<AddError>)
      ensures error == Precheck(limits, AsState(), events)
    {
      error := AssertBatchEventReceiptIntegrity(events);
      if error.None? {
        error := AssertBatchPositionIntegrity(events);
      }
      if error.None? {
        error := AssertCapacity(events);
      }
    }

    /** The main loop of `add`. */
    method AddEach(events: seq<Candidate>) returns (error: Option<AddError>)
      requires ValidLimits(limits) && StorageInv(limits, AsState())
      modifies this`pending, this`dead, this`sourceCursors, this`dispatchedEventIds
      ensures AddLoop(limits, old(AsState()), events) == AddOutcome(AsState(), error)
    {
      hide StorageInv;
      error := None;
      for i := 0 to |events|
        invariant error.None?
        invariant StorageInv(limits, AsState())
        invariant AddLoop(limits, old(AsState()), events[..i]) == AddOutcome(AsState(), None)
      {
        assert events[..i + 1][..i] == events[..i];
        error := AddEvent(events[i]);
        if error.Some? {
          LoopStopsAtError(limits, old(AsState()), events, i + 1);
          return;
        }
      }
      assert events[..|events|] == events;
    }

    /** One iteration of the loop in `add`. */
    method AddEvent(c: Candidate) returns (error: Option<AddError>)
      requires ValidLimits(limits) && StorageInv(limits, AsState())
      modifies this`pending, this`dead, this`sourceCursors, this`dispatchedEventIds
      ensures StorageInv(limits, AsState())
      ensures error.None? ==> AddOne(limits, old(AsState()), c) == Ok(AsState())
      ensures error.Some? ==> AddOne(limits, old(AsState()), c) == Err(error.value) && AsState() == old(AsState())
    {
      ghost var s := AsState();
      if AddOne(limits, s, c).Ok? {
        AddOneKeepsStorage(limits, s, c);
      }
      var id := c.event.eventId;
      var receipt := dispatchedEventIds.Get(id);
      if receipt.Some? {
        error := ReceiptMismatch(c, receipt.value.source, receipt.value.position, false);
        if error.None? {
          RememberDispatched(id, receipt.value.source, receipt.value.position);
        }
        return;
      }
      var existing := pending.Get(id);
      var deadLetter := dead.Get(id);
      if existing.Some? {
        error := ReceiptMismatch(c, existing.value.source, Unlinked(existing.value.position), true);
        if error.Some? {
          return;
        }
      }
      if deadLetter.Some? {
        error := ReceiptMismatch(c, deadLetter.value.source, Unlinked(deadLetter.value.position), false);
        if error.None? {
          dead := dead.Delete(id);
          pending := pending.Set(id, deadLetter.value.(attempts := 0, lastError := None));
        }
        return;
      }
      error := RejectedByHead(c, existing);
      if error.Some? {
        return;
      }
      var previous := LinkToHead(c, existing);
      var position := Position(c.position.aggregateVersion, c.position.commitSequence, c.position.commitSize, previous);
      if existing.Some? {
        pending := pending.Set(id, existing.value.(event := c.event, source := c.source, position := position));
      } else {
        pending := pending.Set(id, Record(id, c.event, c.source, position, 0, None));
      }
    }

    /** The stale-head and position checks against the current source head. */
    method RejectedByHead(c: Candidate, existing: Option<Record>) returns (error: Option<AddError>)
      requires existing == pending.Get(c.event.eventId)
      ensures error == if IsStale(AsState(), c) then Some(StaleHead) else HeadConflict(sourceCursors, c)
    {
      error := None;
      if existing.Some? && c.position.aggregateVersion < existing.value.position.aggregateVersion {
        return Some(StaleHead);
      } else if existing.None? && c.source in sourceCursors
                && c.position.aggregateVersion < sourceCursors[c.source].aggregateVersion {
        return Some(StaleHead);
      }
      if c.source in sourceCursors && sourceCursors[c.source].aggregateVersion == c.position.aggregateVersion {
        var cursor := sourceCursors[c.source];
        if cursor.commitSize != c.position.commitSize {
          return Some(CommitSizeMismatch);
        }
        if c.position.commitSequence in cursor.owners
           && cursor.owners[c.position.commitSequence] != c.event.eventId {
          return Some(PositionOwned);
        }
      }
    }

    /** Finalises the candidate's predecessor and moves the source head. */
    method LinkToHead(c: Candidate, existing: Option<Record>) returns (previous: Option<int>)
      requires existing == pending.Get(c.event.eventId)
      modifies this`sourceCursors
      ensures previous == NextPrevious(old(AsState()), c)
      ensures sourceCursors == NextCursors(old(AsState()), c)
    {
      var id, p := c.event.eventId, c.position;
      var headVersion := HeadVersion(sourceCursors, c.source);
      if existing.Some? && existing.value.position.aggregateVersion != p.aggregateVersion {
        previous := existing.value.position.previous;
        if headVersion == Some(existing.value.position.aggregateVersion) {
          sourceCursors := sourceCursors[c.source := FreshCursor(previous, p, id)];
        } else if headVersion == Some(p.aggregateVersion)
                  && p.commitSequence !in sourceCursors[c.source].owners {
          sourceCursors := sourceCursors[c.source := CursorWithEvent(sourceCursors[c.source], p.commitSequence, id)];
        }
      } else if existing.Some? {
        previous := existing.value.position.previous;
      } else if headVersion == Some(p.aggregateVersion) {
        previous := sourceCursors[c.source].previous;
        if p.commitSequence !in sourceCursors[c.source].owners {
          sourceCursors := sourceCursors[c.source := CursorWithEvent(sourceCursors[c.source], p.commitSequence, id)];
        }
      } else {
        previous := headVersion;
        sourceCursors := sourceCursors[c.source := FreshCursor(previous, p, id)];
      }
    }

    method AssertBatchEventReceiptIntegrity(events: seq<Candidate>) returns (error: Option<AddError>)
      ensures error == ReceiptPrecheck(AsState(), events)
      ensures error.None? <==> ReceiptsAgree(AsState(), events)
    {
      hide ReceiptsAgree;
      ReceiptsVerdict(AsState(), events);
      error := None;
      var receiptsInBatch: map<string, Receipt> := map[];
      for i := 0 to |events|
        invariant error.None? && ReceiptPrecheck(AsState(), events[..i]).None?
        invariant receiptsInBatch == FirstReceipts(events[..i])
      {
        assert events[..i + 1][..i] == events[..i];
        var c := events[i];
        var id := c.event.eventId;
        if id in receiptsInBatch {
          error := ReceiptMismatch(c, receiptsInBatch[id].source, receiptsInBatch[id].position, false);
        } else {
          receiptsInBatch := receiptsInBatch[id := Receipt(c.source, c.position)];
        }
        if error.None? {
          error := StoredMismatch(AsState(), c);
        }
        if error.Some? {
          PrecheckStopsAtError(AsState(), events, i + 1);
          return;
        }
      }
      assert events[..|events|] == events;
    }

    method AssertBatchPositionIntegrity(events: seq<Candidate>) returns (error: Option<AddError>)
      ensures error.None? <==> Simulate(sourceCursors, events).Ok?
      ensures error.Some? ==> Simulate(sourceCursors, events) == Err(error.value)
      ensures error.None? <==> PositionsAgree(sourceCursors, events)
    {
      hide PositionsAgree, Stands;
      PositionsVerdict(sourceCursors, events);
      error := None;
      var simulatedCursors: Cursors := map[];
      assert sourceCursors + simulatedCursors == sourceCursors;
      for i := 0 to |events|
        invariant error.None? && Simulate(sourceCursors, events[..i]) == Ok(sourceCursors + simulatedCursors)
      {
        assert events[..i + 1][..i] == events[..i];
        ghost var sim := sourceCursors + simulatedCursors;
        var c := events[i];
        var cursor :=
          if c.source in simulatedCursors then Some(simulatedCursors[c.source])
          else if c.source in sourceCursors then Some(sourceCursors[c.source])
          else None;
        assert cursor.Some? <==> c.source in sim;
        assert cursor.Some? ==> sim[c.source] == cursor.value;
        if cursor.None? || c.position.aggregateVersion > cursor.value.aggregateVersion {
          var previous := if cursor.None? then None else Some(cursor.value.aggregateVersion);
          simulatedCursors := simulatedCursors[c.source := FreshCursor(previous, c.position, c.event.eventId)];
          assert sourceCursors + simulatedCursors
                 == sim[c.source := FreshCursor(previous, c.position, c.event.eventId)];
        } else if c.position.aggregateVersion == cursor.value.aggregateVersion {
          if cursor.value.commitSize != c.position.commitSize {
            error := Some(CommitSizeMismatch);
          } else if c.position.commitSequence in cursor.value.owners {
            if cursor.value.owners[c.position.commitSequence] != c.event.eventId {
              error := Some(PositionOwned);
            }
          } else {
            var extended := CursorWithEvent(cursor.value, c.position.commitSequence, c.event.eventId);
            simulatedCursors := simulatedCursors[c.source := extended];
            assert sourceCursors + simulatedCursors == sim[c.source := extended];
          }
        }
        if error.Some? {
          SimulationStopsAtError(sourceCursors, events, i + 1);
          return;
        }
      }
      assert events[..|events|] == events;
    }

    method AssertCapacity(events: seq<Candidate>) returns (error: Option<AddError>)
      ensures error == CapacityPrecheck(limits, AsState(), events)
      ensures StorageInv(limits, AsState()) ==>
                error == if RecordsExceed(limits, AsState(), events) then Some(RecordCapacity)
                         else if SourcesExceed(limits, AsState(), events) then Some(SourceCapacity) else None
    {
      hide StorageInv, RecordsExceed, SourcesExceed;
      if StorageInv(limits, AsState()) {
        CapacityVerdict(limits, AsState(), events);
      }
      var newRecordIds: set<string> := {};
      var newSourceKeys: set<Address> := {};
      for i := 0 to |events|
        invariant newRecordIds == NewRecordIds(AsState(), events[..i])
        invariant newSourceKeys == NewSources(AsState(), events[..i])
      {
        var c := events[i];
        NewOfNext(AsState(), events, i);
        if !(pending.Has(c.event.eventId) || dead.Has(c.event.eventId) || dispatchedEventIds.Has(c.event.eventId)) {
          newRecordIds := newRecordIds + {c.event.eventId};
          if c.source !in sourceCursors {
            newSourceKeys := newSourceKeys + {c.source};
          }
        }
      }
      assert events[..|events|] == events;
      var currentRecords := pending.Size() + dead.Size();
      if limits.maxRecords.Some? && currentRecords + |newRecordIds| > limits.maxRecords.value {
        return Some(RecordCapacity);
      }
      if limits.maxSources.Some? && |sourceCursors| + |newSourceKeys| > limits.maxSources.value {
        return Some(SourceCapacity);
      }
      return None;
    }

    /** Puts back what a rolled-back transaction had replaced. */
    method Restore(before: State, ghost past: History)
      requires ValidLimits(limits) && StorageInv(limits, before) && WithinLimits(limits, before)
      modifies this
      ensures Valid() && AsState() == before && history == past
    {
      pending := before.pending;
      dead := before.dead;
      sourceCursors := before.cursors;
      dispatchedEventIds := before.dispatched;
      history := past;
    }

    /** Up to `limit` pending records in insertion order; no limit means all of them. */
    method GetPending(limit: Option<int>) returns (batch: seq<Record>)
      requires Valid()
      ensures var all := PendingRecords(AsState());
              batch == if limit.None? || limit.value >= |all| then all
                       else if limit.value <= 0 then []
                       else all[..limit.value]
    {
      batch := [];
      var i := 0;
      while i < |pending.order| && (limit.None? || |batch| < limit.value)
        invariant i <= |pending.order| && |batch| == i
        invariant batch == PendingRecords(AsState())[..i]
        invariant limit.Some? ==> i <= limit.value || i == 0
      {
        batch := batch + [pending.entries[pending.order[i]]];
        i := i + 1;
      }
    }

    method MarkDispatched(dispatchIds: seq<string>)
      requires Valid()
      modifies this`pending, this`dead, this`dispatchedEventIds
      ensures Valid()
      ensures AsState() == Outboxes.MarkDispatched(limits, old(AsState()), dispatchIds)
      ensures old(Chained()) ==> Chained()
    {
      hide StorageInv, WithinLimits, ChainInv, Outboxes.MarkOneDispatched;
      for i := 0 to |dispatchIds|
        invariant Valid()
        invariant AsState() == Outboxes.MarkDispatched(limits, old(AsState()), dispatchIds[..i])
        invariant old(Chained()) ==> Chained()
      {
        assert dispatchIds[..i + 1][..i] == dispatchIds[..i];
        ghost var s := AsState();
        MarkOneDispatchedStorage(limits, s, dispatchIds[i]);
        if Chained() {
          MarkOneDispatchedChain(limits, s, history, dispatchIds[i]);
        }
        MarkOneDispatched(dispatchIds[i]);
      }
      assert dispatchIds[..|dispatchIds|] == dispatchIds;
    }

    method MarkOneDispatched(id: string)
      modifies this`pending, this`dead, this`dispatchedEventIds
      ensures AsState() == Outboxes.MarkOneDispatched(limits, old(AsState()), id)
    {
      var record := pending.Get(id);
      if record.None? {
        record := dead.Get(id);
      }
      if record.Some? {
        RememberDispatched(id, record.value.source, Unlinked(record.value.position));
      }
      pending := pending.Delete(id);
      dead := dead.Delete(id);
    }

    method RememberDispatched(eventId: string, source: Address, position: CandidatePosition)
      modifies this`dispatchedEventIds
      ensures dispatchedEventIds
              == Outboxes.RememberDispatched(limits.maxRetained, old(dispatchedEventIds), eventId,
                                             Receipt(source, position))
    {
      dispatchedEventIds := dispatchedEventIds.Delete(eventId);
      dispatchedEventIds := dispatchedEventIds.Set(eventId, Receipt(source, position));
      ghost var full := dispatchedEventIds;
      while |dispatchedEventIds.order| > limits.maxRetained
        invariant Evict(limits.maxRetained, dispatchedEventIds) == Evict(limits.maxRetained, full)
        decreases |dispatchedEventIds.order|
      {
        var oldest := dispatchedEventIds.order[0];
        dispatchedEventIds := OrderedMap(dispatchedEventIds.order[1..], dispatchedEventIds.entries - {oldest});
      }
    }

    /** Reports one failed delivery; the result is the dead letter when the ceiling is reached. */
    method MarkFailed(dispatchId: string, error: string) returns (deadLetter: Option<Record>)
      requires Valid()
      modifies this`pending, this`dead
      ensures Valid()
      ensures AsState() == Outboxes.MarkFailed(limits, old(AsState()), dispatchId, error)
      ensures deadLetter == if old(pending.Has(dispatchId)) then dead.Get(dispatchId) else None
      ensures old(Chained()) ==> Chained()
    {
      ghost var s0 := AsState();
      MarkFailedStorage(limits, s0, dispatchId, error);
      if Chained() {
        MarkFailedChain(limits, s0, history, dispatchId, error);
      }
      assert pending.Has(dispatchId) ==> !dead.Has(dispatchId);
      hide StorageInv, WithinLimits, ChainInv, Outboxes.MarkFailed;
      deadLetter := CountFailure(dispatchId, error);
    }

    method CountFailure(dispatchId: string, error: string) returns (deadLetter: Option<Record>)
      requires pending.Has(dispatchId) ==> !dead.Has(dispatchId)
      modifies this`pending, this`dead
      ensures AsState() == Outboxes.MarkFailed(limits, old(AsState()), dispatchId, error)
      ensures deadLetter == if old(pending.Has(dispatchId)) then dead.Get(dispatchId) else None
    {
      if !pending.Has(dispatchId) {
        return None;
      }
      var record := Failed(pending.entries[dispatchId], error);
      if record.attempts >= limits.maxDeliveryAttempts {
        pending := pending.Delete(dispatchId);
        dead := dead.Set(dispatchId, record);
        return Some(record);
      }
      pending := pending.Set(dispatchId, record);
      return None;
    }
  }

  // ---- an error met in a prefix is the error of the whole batch ----

  lemma {:induction false} LoopStopsAtError(l: Limits, s: State, cs: seq<Candidate>, n: nat)
    requires n <= |cs| && AddLoop(l, s, cs[..n]).error.Some?
    ensures AddLoop(l, s, cs) == AddLoop(l, s, cs[..n])
    decreases |cs| - n
  {
    if n == |cs| {
      assert cs[..n] == cs;
    } else {
      assert cs[..n + 1][..n] == cs[..n];
      LoopStopsAtError(l, s, cs, n + 1);
    }
  }

  lemma {:induction false} PrecheckStopsAtError(s: State, cs: seq<Candidate>, n: nat)
    requires n <= |cs| && ReceiptPrecheck(s, cs[..n]).Some?
    ensures ReceiptPrecheck(s, cs) == ReceiptPrecheck(s, cs[..n])
    decreases |cs| - n
  {
    if n == |cs| {
      assert cs[..n] == cs;
    } else {
      assert cs[..n + 1][..n] == cs[..n];
      PrecheckStopsAtError(s, cs, n + 1);
    }
  }

  lemma {:induction false} SimulationStopsAtError(cursors: Cursors, cs: seq<Candidate>, n: nat)
    requires n <= |cs| && Simulate(cursors, cs[..n]).Err?
    ensures Simulate(cursors, cs) == Simulate(cursors, cs[..n])
    decreases |cs| - n
  {
    if n == |cs| {
      assert cs[..n] == cs;
    } else {
      assert cs[..n + 1][..n] == cs[..n];
      SimulationStopsAtError(cursors, cs, n + 1);
    }
  }

  lemma NewOfNext(s: State, cs: seq<Candidate>, i: nat)
    requires i < |cs|
    ensures NewRecordIds(s, cs[..i + 1])
            == NewRecordIds(s, cs[..i]) + (if IsKnown(s, cs[i].event.eventId) then {} else {cs[i].event.eventId})
    ensures NewSources(s, cs[..i + 1])
            == NewSources(s, cs[..i])
               + (if IsKnown(s, cs[i].event.eventId) || cs[i].source in s.cursors then {} else {cs[i].source})
  {
    assert cs[..i + 1] == cs[..i] + [cs[i]];
    assert forall c :: c in cs[..i + 1] <==> c in cs[..i] || c == cs[i];
  }
}
