/** When `add` is all-or-nothing: which batches meet the stale head inside the loop, and what
    such a batch leaves behind. */
module OutboxAtomicity {
  import opened Common
  import opened OrderedMaps
  import opened Outboxes
  import opened OutboxChain
  import opened OutboxProperties

  // ---- which batches are rejected halfway ----

  /** The candidate would move a pending event past a head that is not its own commit. */
  predicate Overtakes(s: State, heads: Cursors, c: Candidate) {
    && IsVersionRefresh(s, c) && c.source in heads
    && heads[c.source].aggregateVersion != s.pending.entries[c.event.eventId].position.aggregateVersion
    && heads[c.source].aggregateVersion < c.position.aggregateVersion
  }

  ghost predicate NoneOvertakes(s: State, cs: seq<Candidate>) {
    forall i: nat :: i < |cs| ==> !OvertakesAt(s, cs, i)
  }

  predicate OvertakesAt(s: State, cs: seq<Candidate>, i: nat)
    requires i < |cs|
  {
    Simulate(s.cursors, cs[..i]).Ok? && Overtakes(s, Simulate(s.cursors, cs[..i]).value, cs[i])
  }

  predicate BehindHead(heads: Cursors, c: Candidate) {
    c.source in heads && c.position.aggregateVersion < heads[c.source].aggregateVersion
  }

  /** The first mention of a pending event below its stored version, or of an unknown event
      below the head that its source has by then. */
  predicate IsStaleAfter(s: State, seen: map<string, Receipt>, heads: Cursors, c: Candidate) {
    var id := c.event.eventId;
    && id !in seen && !s.dispatched.Has(id) && !s.dead.Has(id)
    && if s.pending.Has(id) then c.position.aggregateVersion < s.pending.entries[id].position.aggregateVersion
       else BehindHead(heads, c)
  }

  /** The heads the loop has after a candidate: as the pre-check simulates them, except that an
      event on record at its version, or moved past a foreign head, leaves them alone. */
  function HeadsOne(s: State, seen: map<string, Receipt>, heads: Cursors, c: Candidate): Cursors {
    var id := c.event.eventId;
    if id in seen || (IsKnown(s, id) && !IsVersionRefresh(s, c)) || Overtakes(s, heads, c) then heads
    else if SimulateOne(heads, c).Ok? then SimulateOne(heads, c).value else heads
  }

  function LoopHeads(s: State, cs: seq<Candidate>): Cursors {
    if |cs| == 0 then s.cursors
    else HeadsOne(s, FirstReceipts(cs[..|cs| - 1]), LoopHeads(s, cs[..|cs| - 1]), cs[|cs| - 1])
  }

  /** The guard that fails inside the loop: the candidate is stale, or the head commit is at its
      version and disagrees with it. Receipts and dead letters meet neither. */
  function Blocked(s: State, seen: map<string, Receipt>, heads: Cursors, c: Candidate): Option<AddError> {
    var id := c.event.eventId;
    if s.dispatched.Has(id) || (s.dead.Has(id) && id !in seen) then None
    else if IsStaleAfter(s, seen, heads, c) then Some(StaleHead)
    else HeadConflict(heads, c)
  }

  function BlockedAt(s: State, cs: seq<Candidate>, i: nat): Option<AddError> {
    if i < |cs| then Blocked(s, FirstReceipts(cs[..i]), LoopHeads(s, cs[..i]), cs[i]) else None
  }

  ghost predicate NoneBlocked(s: State, cs: seq<Candidate>) {
    forall i: nat :: BlockedAt(s, cs, i).None?
  }

  predicate IsFirstBlocked(s: State, cs: seq<Candidate>, i: nat) {
    BlockedAt(s, cs, i).Some? && forall j: nat :: j < i ==> BlockedAt(s, cs, j).None?
  }

  predicate StaleAt(s: State, cs: seq<Candidate>, i: nat) {
    && i < |cs| && Simulate(s.cursors, cs[..i]).Ok?
    && IsStaleAfter(s, FirstReceipts(cs[..i]), Simulate(s.cursors, cs[..i]).value, cs[i])
  }

  ghost predicate NoneStale(s: State, cs: seq<Candidate>) {
    forall i: nat :: !StaleAt(s, cs, i)
  }

  // ---- the state in the middle of the loop ----

  function ReceiptOf(r: Record): Receipt { Receipt(r.source, Unlinked(r.position)) }

  /** Heads that differ at most in the predecessor they name. */
  ghost predicate SameHeads(x: Cursors, y: Cursors) {
    && x.Keys == y.Keys
    && forall a :: a in x ==> x[a] == y[a].(previous := x[a].previous)
  }

  /** The records in the middle of a batch: the stored ones, as the batch so far mentioned them. */
  ghost predicate MidBatch(s: State, seen: map<string, Receipt>, now: State) {
    && now.dispatched.entries == s.dispatched.entries
    && (forall id :: now.pending.Has(id) <==> s.pending.Has(id) || (id in seen && !s.dispatched.Has(id)))
    && (forall id :: now.dead.Has(id) <==> s.dead.Has(id) && id !in seen)
    && (forall id :: id in now.pending.entries ==>
          ReceiptOf(now.pending.entries[id]) == if id in seen then seen[id] else ReceiptOf(s.pending.entries[id]))
    && (forall id :: id in now.dead.entries ==>
          s.dead.Has(id) && ReceiptOf(now.dead.entries[id]) == ReceiptOf(s.dead.entries[id]))
  }

  /** Nothing recorded is past the head of its source, and what is at it owns its sequence. */
  predicate IsCovered(heads: Cursors, id: string, r: Receipt) {
    && r.source in heads && r.position.aggregateVersion <= heads[r.source].aggregateVersion
    && (r.position.aggregateVersion == heads[r.source].aggregateVersion ==>
        OwnsCandidate(heads[r.source], id, r.position))
  }

  ghost predicate Covered(s: State) {
    && (forall id :: id in s.pending.entries ==> IsCovered(s.cursors, id, ReceiptOf(s.pending.entries[id])))
    && (forall id :: id in s.dead.entries ==> IsCovered(s.cursors, id, ReceiptOf(s.dead.entries[id])))
    && (forall id :: id in s.dispatched.entries ==> IsCovered(s.cursors, id, s.dispatched.entries[id]))
  }

  lemma FinalizedIsCovered(s: State, h: History, id: string, r: Receipt)
    requires HeadsAreLast(s.cursors, h) && FinalizedCandidate(h, r.source, id, r.position)
    ensures IsCovered(s.cursors, id, r)
  {
    HeadIsNewest(s, h, r.source, id, r.position);
  }

  lemma ChainIsCovered(s: State, h: History)
    requires ChainInv(s, h)
    ensures Covered(s)
  {
    hide HeadsAreLast, Finalized, FinalizedCandidate, IsCovered;
    forall id | id in s.pending.entries ensures IsCovered(s.cursors, id, ReceiptOf(s.pending.entries[id])) {
      FinalizedForgetsLink(h, s.pending.entries[id].source, id, s.pending.entries[id].position);
      FinalizedIsCovered(s, h, id, ReceiptOf(s.pending.entries[id]));
    }
    forall id | id in s.dead.entries ensures IsCovered(s.cursors, id, ReceiptOf(s.dead.entries[id])) {
      FinalizedForgetsLink(h, s.dead.entries[id].source, id, s.dead.entries[id].position);
      FinalizedIsCovered(s, h, id, ReceiptOf(s.dead.entries[id]));
    }
    forall id | id in s.dispatched.entries ensures IsCovered(s.cursors, id, s.dispatched.entries[id]) {
      FinalizedIsCovered(s, h, id, s.dispatched.entries[id]);
    }
  }

  // ---- one candidate in the middle of the loop ----

  ghost predicate Exclusive(s: State) {
    && s.pending.entries.Keys !! s.dead.entries.Keys
    && s.pending.entries.Keys !! s.dispatched.entries.Keys
    && s.dead.entries.Keys !! s.dispatched.entries.Keys
  }

  lemma MidMismatch(s: State, seen: map<string, Receipt>, now: State, c: Candidate)
    requires Exclusive(s) && MidBatch(s, seen, now) && BatchMismatch(s, seen, c).None?
    ensures StoredMismatch(now, c).None?
    ensures IsVersionRefresh(now, c) ==> IsVersionRefresh(s, c) && c.event.eventId !in seen
    ensures c.event.eventId in seen ==> seen[c.event.eventId] == Receipt(c.source, c.position)
  {
  }

  /** A head at the candidate's version that the simulation accepts does not conflict. */
  lemma SimulatedHead(heads: Cursors, sim: Cursors, c: Candidate)
    requires SameHeads(heads, sim) && SimulateOne(sim, c).Ok?
    ensures HeadConflict(heads, c).None?
  {
  }

  lemma MidStale(l: Limits, s: State, seen: map<string, Receipt>, now: State, sim: Cursors, c: Candidate)
    requires Exclusive(s) && MidBatch(s, seen, now) && SameHeads(now.cursors, sim)
    requires BatchMismatch(s, seen, c).None? && SimulateOne(sim, c).Ok?
    ensures AddOne(l, now, c).Err? <==> IsStaleAfter(s, seen, sim, c)
    ensures AddOne(l, now, c).Err? ==> AddOne(l, now, c).error == StaleHead
  {
    MidMismatch(s, seen, now, c);
    SimulatedHead(now.cursors, sim, c);
    hide BatchMismatch, SimulateOne, StoredMismatch, HeadConflict;
  }

  /** What an accepted candidate's version is to the head, however its event was known. */
  lemma MidHeads(s: State, seen: map<string, Receipt>, now: State, sim: Cursors, c: Candidate)
    requires Exclusive(s) && MidBatch(s, seen, now) && Covered(now) && SameHeads(now.cursors, sim)
    requires BatchMismatch(s, seen, c).None? && SimulateOne(sim, c).Ok? && !Overtakes(s, sim, c)
    requires !now.dispatched.Has(c.event.eventId) && !now.dead.Has(c.event.eventId) && !IsStale(now, c)
    ensures SameHeads(NextCursors(now, c), SimulateOne(sim, c).value)
  {
    var id := c.event.eventId;
    MidMismatch(s, seen, now, c);
    hide BatchMismatch, StoredMismatch;
    if now.pending.Has(id) {
      var prior := now.pending.entries[id].position.aggregateVersion;
      assert IsCovered(now.cursors, id, ReceiptOf(now.pending.entries[id]));
      if prior == c.position.aggregateVersion {
        assert ReceiptOf(now.pending.entries[id]).position.commitSequence == c.position.commitSequence;
      }
    }
  }

  lemma KnownIsSettled(heads: Cursors, sim: Cursors, c: Candidate)
    requires SameHeads(heads, sim) && IsCovered(heads, c.event.eventId, Receipt(c.source, c.position))
    ensures SimulateOne(sim, c).Ok? && SameHeads(heads, SimulateOne(sim, c).value)
  {
    if c.position.aggregateVersion == sim[c.source].aggregateVersion {
      assert WithOwner(sim, c) == sim;
    }
  }

  lemma MidSimulated(l: Limits, s: State, seen: map<string, Receipt>, now: State, sim: Cursors, c: Candidate)
    requires Exclusive(s) && MidBatch(s, seen, now) && Covered(now) && SameHeads(now.cursors, sim)
    requires BatchMismatch(s, seen, c).None? && SimulateOne(sim, c).Ok? && !Overtakes(s, sim, c)
    requires AddOne(l, now, c).Ok?
    ensures SameHeads(AddOne(l, now, c).value.cursors, SimulateOne(sim, c).value)
  {
    var id := c.event.eventId;
    if now.dispatched.Has(id) || now.dead.Has(id) {
      MidMismatch(s, seen, now, c);
      assert IsCovered(now.cursors, id, Receipt(c.source, c.position));
      KnownIsSettled(now.cursors, sim, c);
    } else {
      hide MidBatch, Covered, SimulateOne, Overtakes, BatchMismatch, SameHeads;
      MidHeads(s, seen, now, sim, c);
    }
  }

  function Mentioned(seen: map<string, Receipt>, c: Candidate): map<string, Receipt> {
    if c.event.eventId in seen then seen else seen[c.event.eventId := Receipt(c.source, c.position)]
  }

  lemma MidRequeued(s: State, seen: map<string, Receipt>, now: State, c: Candidate)
    requires Exclusive(s) && MidBatch(s, seen, now) && now.dead.Has(c.event.eventId)
    requires StoredMismatch(now, c).None?
    ensures MidBatch(s, Mentioned(seen, c), Requeue(now, c.event.eventId))
  {
  }

  lemma MidStored(s: State, seen: map<string, Receipt>, now: State, c: Candidate)
    requires Exclusive(s) && MidBatch(s, seen, now) && !now.dispatched.Has(c.event.eventId)
    requires !now.dead.Has(c.event.eventId)
    requires c.event.eventId in seen ==> seen[c.event.eventId] == Receipt(c.source, c.position)
    requires StoredMismatch(now, c).None?
    ensures MidBatch(s, Mentioned(seen, c), StoreFresh(now, c))
  {
    assert ReceiptOf(NextRecord(now, c)) == Receipt(c.source, c.position);
    hide NextRecord, NextCursors, ReceiptOf, StoredMismatch, MidBatch;
    MidSet(s, seen, now, c, NextRecord(now, c), NextCursors(now, c));
  }

  lemma MidSet(s: State, seen: map<string, Receipt>, now: State, c: Candidate, r: Record, cursors: Cursors)
    requires Exclusive(s) && MidBatch(s, seen, now) && !now.dispatched.Has(c.event.eventId)
    requires !now.dead.Has(c.event.eventId)
    requires c.event.eventId in seen ==> seen[c.event.eventId] == Receipt(c.source, c.position)
    requires ReceiptOf(r) == Receipt(c.source, c.position)
    ensures MidBatch(s, Mentioned(seen, c), now.(cursors := cursors, pending := now.pending.Set(c.event.eventId, r)))
  {
    hide ReceiptOf, MidBatch, Exclusive;
    var id := c.event.eventId;
    assert Mentioned(seen, c) == seen[id := Receipt(c.source, c.position)];
    MidStoredEntry(s, seen, now, id, r, now.(cursors := cursors, pending := now.pending.Set(id, r)));
  }

  lemma MidStoredEntry(s: State, seen: map<string, Receipt>, now: State, id: string, r: Record, after: State)
    requires Exclusive(s) && MidBatch(s, seen, now) && !now.dispatched.Has(id) && !now.dead.Has(id)
    requires after.pending.entries == now.pending.entries[id := r]
    requires after.dead.entries == now.dead.entries && after.dispatched.entries == now.dispatched.entries
    ensures MidBatch(s, seen[id := ReceiptOf(r)], after)
  {
    hide ReceiptOf;
  }

  lemma MidTouched(s: State, seen: map<string, Receipt>, now: State, c: Candidate,
                   dispatched: OrderedMap<string, Receipt>)
    requires MidBatch(s, seen, now) && s.dispatched.Has(c.event.eventId) && !s.dead.Has(c.event.eventId)
    requires !s.pending.Has(c.event.eventId) && dispatched.entries == now.dispatched.entries
    ensures MidBatch(s, Mentioned(seen, c), now.(dispatched := dispatched))
  {
  }

  lemma MidNext(l: Limits, s: State, seen: map<string, Receipt>, now: State, c: Candidate)
    requires ValidLimits(l) && StorageInv(l, now) && Exclusive(s) && MidBatch(s, seen, now)
    requires BatchMismatch(s, seen, c).None? && AddOne(l, now, c).Ok?
    ensures MidBatch(s, Mentioned(seen, c), AddOne(l, now, c).value)
  {
    var id := c.event.eventId;
    MidMismatch(s, seen, now, c);
    AddOneKeepsStorage(l, now, c);
    assert s.dispatched.Has(id) <==> now.dispatched.Has(id);
    hide StorageInv, MidBatch, BatchMismatch, StoredMismatch, RememberDispatched;
    if now.dispatched.Has(id) {
      MidTouched(s, seen, now, c, AddOne(l, now, c).value.dispatched);
    } else if now.dead.Has(id) {
      MidRequeued(s, seen, now, c);
    } else {
      MidStored(s, seen, now, c);
    }
  }

  /** The heads after a candidate still cover what they covered. */
  ghost predicate HeadsAdvance(before: Cursors, after: Cursors) {
    forall a :: a in before ==>
      && a in after
      && (after[a] == before[a] || before[a].aggregateVersion < after[a].aggregateVersion
          || CommitGrows(before[a], after[a]))
  }

  lemma AdvanceCovers(before: Cursors, after: Cursors, id: string, r: Receipt)
    requires HeadsAdvance(before, after) && IsCovered(before, id, r)
    ensures IsCovered(after, id, r)
  {
  }

  lemma NextAdvances(now: State, c: Candidate)
    requires StoredMismatch(now, c).None? && !now.dispatched.Has(c.event.eventId) && !now.dead.Has(c.event.eventId)
    requires !IsStale(now, c) && HeadConflict(now.cursors, c).None?
    ensures HeadsAdvance(now.cursors, NextCursors(now, c))
  {
  }

  lemma NextIsCovered(now: State, c: Candidate)
    requires StoredMismatch(now, c).None? && !now.dispatched.Has(c.event.eventId) && !now.dead.Has(c.event.eventId)
    requires !IsStale(now, c) && HeadConflict(now.cursors, c).None? && Covered(now)
    requires IsVersionRefresh(now, c) ==> !Overtakes(now, now.cursors, c)
    ensures IsCovered(NextCursors(now, c), c.event.eventId, Receipt(c.source, c.position))
  {
    var id := c.event.eventId;
    if now.pending.Has(id) {
      assert IsCovered(now.cursors, id, ReceiptOf(now.pending.entries[id]));
    }
  }

  lemma MidCovered(l: Limits, s: State, seen: map<string, Receipt>, now: State, sim: Cursors, c: Candidate)
    requires ValidLimits(l) && StorageInv(l, now)
    requires Exclusive(s) && MidBatch(s, seen, now) && Covered(now) && SameHeads(now.cursors, sim)
    requires BatchMismatch(s, seen, c).None? && SimulateOne(sim, c).Ok? && !Overtakes(s, sim, c)
    requires AddOne(l, now, c).Ok?
    ensures Covered(AddOne(l, now, c).value)
  {
    var id := c.event.eventId;
    MidMismatch(s, seen, now, c);
    MidOvertakes(s, seen, now, sim, c);
    hide MidBatch, SameHeads, BatchMismatch, SimulateOne, Overtakes;
    if now.dispatched.Has(id) || now.dead.Has(id) {
      AddOneKeepsStorage(l, now, c);
      hide StorageInv, IsCovered;
    } else {
      hide StorageInv;
      NextAdvances(now, c);
      NextIsCovered(now, c);
      assert ReceiptOf(NextRecord(now, c)) == Receipt(c.source, c.position);
      StoredIsCovered(now, c);
    }
  }

  lemma MidOvertakes(s: State, seen: map<string, Receipt>, now: State, sim: Cursors, c: Candidate)
    requires Exclusive(s) && MidBatch(s, seen, now) && SameHeads(now.cursors, sim)
    requires BatchMismatch(s, seen, c).None? && !Overtakes(s, sim, c)
    ensures !Overtakes(now, now.cursors, c)
  {
    MidMismatch(s, seen, now, c);
    hide BatchMismatch, StoredMismatch;
  }

  lemma StoredIsCovered(now: State, c: Candidate)
    requires Covered(now) && HeadsAdvance(now.cursors, NextCursors(now, c))
    requires ReceiptOf(NextRecord(now, c)) == Receipt(c.source, c.position)
    requires IsCovered(NextCursors(now, c), c.event.eventId, Receipt(c.source, c.position))
    ensures Covered(StoreFresh(now, c))
  {
    hide NextCursors, NextRecord, IsCovered, ReceiptOf, HeadsAdvance;
    forall id, r: Receipt | IsCovered(now.cursors, id, r) ensures IsCovered(NextCursors(now, c), id, r) {
      AdvanceCovers(now.cursors, NextCursors(now, c), id, r);
    }
  }

  // ---- the loop on any batch ----

  /** Every stored record's source has a head. */
  ghost predicate HasHeads(s: State) {
    && (forall id :: id in s.pending.entries ==> s.pending.entries[id].source in s.cursors)
    && (forall id :: id in s.dead.entries ==> s.dead.entries[id].source in s.cursors)
  }

  lemma NextHasHeads(s: State, c: Candidate)
    requires StoredMismatch(s, c).None? && !s.dispatched.Has(c.event.eventId) && !s.dead.Has(c.event.eventId)
    requires s.pending.Has(c.event.eventId) ==> c.source in s.cursors
    ensures s.cursors.Keys <= NextCursors(s, c).Keys && c.source in NextCursors(s, c)
    ensures NextRecord(s, c).source == c.source
  {
  }

  lemma OneKeepsHeads(l: Limits, s: State, c: Candidate)
    requires HasHeads(s) && AddOne(l, s, c).Ok?
    ensures HasHeads(AddOne(l, s, c).value)
  {
    if !s.dispatched.Has(c.event.eventId) && !s.dead.Has(c.event.eventId) {
      assert s.pending.Has(c.event.eventId) ==> c.source in s.cursors;
      NextHasHeads(s, c);
      hide NextCursors, NextRecord, StoredMismatch, IsStale, HeadConflict;
    }
  }

  lemma {:induction false} LoopKeepsHeads(l: Limits, s: State, cs: seq<Candidate>)
    requires HasHeads(s)
    ensures HasHeads(AddLoop(l, s, cs).state)
  {
    hide HasHeads, AddOne;
    if |cs| > 0 {
      var before := AddLoop(l, s, cs[..|cs| - 1]);
      LoopKeepsHeads(l, s, cs[..|cs| - 1]);
      if before.error.None? && AddOne(l, before.state, cs[|cs| - 1]).Ok? {
        OneKeepsHeads(l, before.state, cs[|cs| - 1]);
      }
    }
  }

  lemma {:induction false} DispatchKeepsHeads(l: Limits, s: State, ids: seq<string>)
    requires HasHeads(s)
    ensures HasHeads(MarkDispatched(l, s, ids))
  {
    if |ids| > 0 {
      DispatchKeepsHeads(l, s, ids[..|ids| - 1]);
    }
  }

  /** Every operation keeps it, on any input. */
  lemma HeadsAreKept(l: Limits, s: State, cs: seq<Candidate>, ids: seq<string>, id: string, error: string)
    requires HasHeads(s)
    ensures HasHeads(EMPTY) && HasHeads(Add(l, s, cs).state)
    ensures HasHeads(MarkDispatched(l, s, ids)) && HasHeads(MarkFailed(l, s, id, error))
  {
    LoopKeepsHeads(l, s, cs);
    DispatchKeepsHeads(l, s, ids);
    hide AddLoop, MarkDispatched;
  }

  ghost predicate SourcesKnown(s: State, heads: Cursors) {
    forall id :: id in s.pending.entries ==> s.pending.entries[id].source in heads
  }

  lemma StepBlocked(l: Limits, s: State, seen: map<string, Receipt>, now: State, heads: Cursors, c: Candidate)
    requires Exclusive(s) && MidBatch(s, seen, now) && SameHeads(now.cursors, heads)
    requires BatchMismatch(s, seen, c).None?
    ensures AddOne(l, now, c).Err? <==> Blocked(s, seen, heads, c).Some?
    ensures AddOne(l, now, c).Err? ==> Blocked(s, seen, heads, c) == Some(AddOne(l, now, c).error)
  {
    MidMismatch(s, seen, now, c);
    assert HeadConflict(now.cursors, c) == HeadConflict(heads, c);
    hide BatchMismatch, StoredMismatch, HeadConflict, SameHeads;
  }

  lemma StepHeads(s: State, seen: map<string, Receipt>, now: State, heads: Cursors, c: Candidate)
    requires Exclusive(s) && MidBatch(s, seen, now) && SameHeads(now.cursors, heads) && SourcesKnown(s, heads)
    requires BatchMismatch(s, seen, c).None? && !now.dispatched.Has(c.event.eventId) && !now.dead.Has(c.event.eventId)
    requires !IsStale(now, c) && HeadConflict(now.cursors, c).None?
    ensures SameHeads(NextCursors(now, c), HeadsOne(s, seen, heads, c))
  {
    var id := c.event.eventId;
    MidMismatch(s, seen, now, c);
    hide BatchMismatch, StoredMismatch;
    if !now.pending.Has(id) {
      assert !IsKnown(s, id) && id !in seen && !IsVersionRefresh(s, c);
      hide MidBatch, SourcesKnown;
      FreshHeads(now, heads, c);
    } else if !IsVersionRefresh(now, c) {
      assert NextCursors(now, c) == now.cursors && HeadsOne(s, seen, heads, c) == heads;
    } else {
      assert now.pending.entries[id].position.aggregateVersion == s.pending.entries[id].position.aggregateVersion;
      hide MidBatch;
      RefreshHeads(now, heads, c);
    }
  }

  /** A fresh candidate moves heads as the pre-check simulates. */
  lemma FreshHeads(now: State, heads: Cursors, c: Candidate)
    requires SameHeads(now.cursors, heads) && !IsKnown(now, c.event.eventId)
    requires !IsStale(now, c) && HeadConflict(now.cursors, c).None?
    ensures SimulateOne(heads, c).Ok? && SameHeads(NextCursors(now, c), SimulateOne(heads, c).value)
  {
  }

  /** A move leaves the heads alone when it overtakes, and otherwise moves them as simulated. */
  lemma RefreshHeads(now: State, heads: Cursors, c: Candidate)
    requires SameHeads(now.cursors, heads) && IsVersionRefresh(now, c) && c.source in heads
    requires !IsStale(now, c) && HeadConflict(now.cursors, c).None?
    ensures if Overtakes(now, heads, c) then SameHeads(NextCursors(now, c), heads)
            else SimulateOne(heads, c).Ok? && SameHeads(NextCursors(now, c), SimulateOne(heads, c).value)
  {
  }

  lemma StepLoopHeads(l: Limits, s: State, seen: map<string, Receipt>, now: State, heads: Cursors, c: Candidate)
    requires Exclusive(s) && MidBatch(s, seen, now) && SameHeads(now.cursors, heads) && SourcesKnown(s, heads)
    requires BatchMismatch(s, seen, c).None? && AddOne(l, now, c).Ok?
    ensures SameHeads(AddOne(l, now, c).value.cursors, HeadsOne(s, seen, heads, c))
    ensures SourcesKnown(s, HeadsOne(s, seen, heads, c))
  {
    assert heads.Keys <= HeadsOne(s, seen, heads, c).Keys;
    if !now.dispatched.Has(c.event.eventId) && !now.dead.Has(c.event.eventId) {
      hide MidBatch, BatchMismatch, HeadsOne, SourcesKnown, SameHeads;
      StepHeads(s, seen, now, heads, c);
    } else {
      assert IsKnown(s, c.event.eventId) && !IsVersionRefresh(s, c);
    }
  }

  /** A loop that is still going has the heads and records that the batch so far determines. */
  ghost predicate LoopGoes(l: Limits, s: State, cs: seq<Candidate>) {
    var now := AddLoop(l, s, cs).state;
    && StorageInv(l, now)
    && (AddLoop(l, s, cs).error.None? ==>
          && MidBatch(s, FirstReceipts(cs), now) && SameHeads(now.cursors, LoopHeads(s, cs))
          && SourcesKnown(s, LoopHeads(s, cs)))
  }

  lemma LoopGoesStep(l: Limits, s: State, cs: seq<Candidate>)
    requires ValidLimits(l) && Exclusive(s) && |cs| > 0 && ReceiptPrecheck(s, cs).None?
    requires LoopGoes(l, s, cs[..|cs| - 1]) && AddLoop(l, s, cs[..|cs| - 1]).error.None?
    ensures LoopGoes(l, s, cs)
    ensures AddLoop(l, s, cs).error == BlockedAt(s, cs, |cs| - 1)
    ensures AddLoop(l, s, cs).error.Some? ==> AddLoop(l, s, cs).state == AddLoop(l, s, cs[..|cs| - 1]).state
  {
    var init, c := cs[..|cs| - 1], cs[|cs| - 1];
    var now, seen, heads := AddLoop(l, s, init).state, FirstReceipts(init), LoopHeads(s, init);
    hide MidBatch, SourcesKnown, SameHeads, StorageInv, AddOne, Exclusive, BatchMismatch, HeadsOne, Blocked;
    StepBlocked(l, s, seen, now, heads, c);
    if AddOne(l, now, c).Ok? {
      AddOneKeepsStorage(l, now, c);
      MidNext(l, s, seen, now, c);
      StepLoopHeads(l, s, seen, now, heads, c);
    }
  }

  lemma PrefixBlocked(s: State, cs: seq<Candidate>, n: nat, i: nat)
    requires i < n <= |cs|
    ensures BlockedAt(s, cs[..n], i) == BlockedAt(s, cs, i)
  {
    assert cs[..n][..i] == cs[..i];
  }

  lemma {:induction false} PrefixReceipts(s: State, cs: seq<Candidate>, n: nat)
    requires ReceiptPrecheck(s, cs).None? && n <= |cs|
    ensures ReceiptPrecheck(s, cs[..n]).None?
  {
    if n == |cs| {
      assert cs[..n] == cs;
    } else {
      PrefixReceipts(s, cs[..|cs| - 1], n);
      assert cs[..|cs| - 1][..n] == cs[..n];
    }
  }

  lemma NoneBlockedSplits(s: State, cs: seq<Candidate>)
    requires |cs| > 0
    ensures NoneBlocked(s, cs) <==> NoneBlocked(s, cs[..|cs| - 1]) && BlockedAt(s, cs, |cs| - 1).None?
  {
    var n := |cs| - 1;
    forall i: nat | i < n ensures BlockedAt(s, cs[..n], i) == BlockedAt(s, cs, i) {
      PrefixBlocked(s, cs, n, i);
    }
    assert forall i: nat :: BlockedAt(s, cs, i).Some? ==> i < |cs|;
    assert forall i: nat :: BlockedAt(s, cs[..n], i).Some? ==> i < n;
  }

  lemma LoopStarts(l: Limits, s: State)
    requires StorageInv(l, s) && HasHeads(s)
    ensures LoopGoes(l, s, [])
  {
    assert SameHeads(s.cursors, s.cursors);
  }

  /** Once the receipts agree, the loop goes through if and only if no guard fails in it. */
  lemma {:induction false} LoopGoesIff(l: Limits, s: State, cs: seq<Candidate>)
    requires ValidLimits(l) && StorageInv(l, s) && HasHeads(s) && ReceiptPrecheck(s, cs).None?
    ensures LoopGoes(l, s, cs)
    ensures AddLoop(l, s, cs).error.None? <==> NoneBlocked(s, cs)
  {
    assert Exclusive(s);
    if |cs| == 0 {
      LoopStarts(l, s);
      assert cs == [];
    } else {
      var n := |cs| - 1;
      PrefixReceipts(s, cs, n);
      NoneBlockedSplits(s, cs);
      hide StorageInv, HasHeads, MidBatch, SameHeads, SourcesKnown, ReceiptPrecheck, LoopHeads, BlockedAt, AddOne;
      hide Exclusive;
      LoopGoesIff(l, s, cs[..n]);
      if AddLoop(l, s, cs[..n]).error.None? {
        LoopGoesStep(l, s, cs);
      }
    }
  }

  lemma FirstBlockedIsInside(s: State, cs: seq<Candidate>, i: nat)
    requires IsFirstBlocked(s, cs, i)
    ensures i < |cs|
  {
  }

  lemma PrefixFirstBlocked(s: State, cs: seq<Candidate>, n: nat, i: nat)
    requires IsFirstBlocked(s, cs, i) && i < n <= |cs|
    ensures IsFirstBlocked(s, cs[..n], i) && BlockedAt(s, cs[..n], i) == BlockedAt(s, cs, i)
  {
    forall j: nat | j < n ensures BlockedAt(s, cs[..n], j) == BlockedAt(s, cs, j) {
      PrefixBlocked(s, cs, n, j);
    }
  }

  lemma NoneBlockedBefore(s: State, cs: seq<Candidate>, n: nat)
    requires IsFirstBlocked(s, cs, n) && n < |cs|
    ensures NoneBlocked(s, cs[..n])
  {
    forall j: nat | j < n ensures BlockedAt(s, cs[..n], j) == BlockedAt(s, cs, j) {
      PrefixBlocked(s, cs, n, j);
    }
    assert forall j: nat :: BlockedAt(s, cs[..n], j).Some? ==> j < n;
  }

  /** The first failing guard stops the loop, and what was accepted before it stays. */
  lemma {:induction false} StopsAtFirstBlocked(l: Limits, s: State, cs: seq<Candidate>, i: nat)
    requires ValidLimits(l) && StorageInv(l, s) && HasHeads(s) && ReceiptPrecheck(s, cs).None?
    requires IsFirstBlocked(s, cs, i)
    ensures AddLoop(l, s, cs[..i]).error.None?
    ensures AddLoop(l, s, cs) == AddOutcome(AddLoop(l, s, cs[..i]).state, BlockedAt(s, cs, i))
    decreases |cs|
  {
    var n := |cs| - 1;
    assert Exclusive(s);
    FirstBlockedIsInside(s, cs, i);
    hide StorageInv, HasHeads, ReceiptPrecheck, IsFirstBlocked, NoneBlocked, BlockedAt, AddOne, Exclusive, LoopGoes;
    PrefixReceipts(s, cs, n);
    if i < n {
      PrefixFirstBlocked(s, cs, n, i);
      StopsAtFirstBlocked(l, s, cs[..n], i);
      assert cs[..n][..i] == cs[..i];
    } else {
      NoneBlockedBefore(s, cs, n);
      LoopGoesIff(l, s, cs[..n]);
      LoopGoesStep(l, s, cs);
    }
  }

  // ---- the loop on a batch that overtakes nothing ----

  /** A loop that is still going has the pre-check's heads, and its records as mentioned. */
  ghost predicate LoopFollows(l: Limits, s: State, cs: seq<Candidate>) {
    var r := AddLoop(l, s, cs);
    && StorageInv(l, r.state)
    && (r.error.Some? ==> r.error.value == StaleHead)
    && (r.error.None? ==>
          && MidBatch(s, FirstReceipts(cs), r.state) && Covered(r.state)
          && Simulate(s.cursors, cs).Ok? && SameHeads(r.state.cursors, Simulate(s.cursors, cs).value))
  }

  lemma LoopFollowsStep(l: Limits, s: State, cs: seq<Candidate>)
    requires ValidLimits(l) && Exclusive(s) && |cs| > 0
    requires ReceiptPrecheck(s, cs).None? && Simulate(s.cursors, cs).Ok? && !OvertakesAt(s, cs, |cs| - 1)
    requires LoopFollows(l, s, cs[..|cs| - 1]) && AddLoop(l, s, cs[..|cs| - 1]).error.None?
    ensures LoopFollows(l, s, cs)
    ensures AddLoop(l, s, cs).error.Some? <==> StaleAt(s, cs, |cs| - 1)
  {
    var init, c := cs[..|cs| - 1], cs[|cs| - 1];
    var now, seen, sim := AddLoop(l, s, init).state, FirstReceipts(init), Simulate(s.cursors, init).value;
    hide MidBatch, Covered, SameHeads, StorageInv, AddOne, Exclusive, BatchMismatch, SimulateOne, Overtakes;
    hide IsStaleAfter;
    MidStale(l, s, seen, now, sim, c);
    if AddOne(l, now, c).Ok? {
      AddOneKeepsStorage(l, now, c);
      MidNext(l, s, seen, now, c);
      MidSimulated(l, s, seen, now, sim, c);
      MidCovered(l, s, seen, now, sim, c);
    }
  }

  lemma NothingMentioned(s: State)
    ensures MidBatch(s, map[], s) && SameHeads(s.cursors, s.cursors)
  {
  }

  lemma PrefixStale(s: State, cs: seq<Candidate>, n: nat, i: nat)
    requires i < n <= |cs|
    ensures StaleAt(s, cs[..n], i) <==> StaleAt(s, cs, i)
    ensures OvertakesAt(s, cs[..n], i) <==> OvertakesAt(s, cs, i)
  {
    assert cs[..n][..i] == cs[..i];
  }

  lemma PrefixOvertakes(s: State, cs: seq<Candidate>, n: nat)
    requires NoneOvertakes(s, cs) && n <= |cs|
    ensures NoneOvertakes(s, cs[..n])
  {
    forall i: nat | i < n ensures !OvertakesAt(s, cs[..n], i) {
      PrefixStale(s, cs, n, i);
    }
  }

  lemma {:induction false} PrefixChecks(s: State, cs: seq<Candidate>, n: nat)
    requires ReceiptPrecheck(s, cs).None? && Simulate(s.cursors, cs).Ok? && n <= |cs|
    ensures ReceiptPrecheck(s, cs[..n]).None? && Simulate(s.cursors, cs[..n]).Ok?
  {
    if n == |cs| {
      assert cs[..n] == cs;
    } else {
      PrefixChecks(s, cs[..|cs| - 1], n);
      assert cs[..|cs| - 1][..n] == cs[..n];
    }
  }

  lemma NoneStaleSplits(s: State, cs: seq<Candidate>)
    requires |cs| > 0
    ensures NoneStale(s, cs) <==> NoneStale(s, cs[..|cs| - 1]) && !StaleAt(s, cs, |cs| - 1)
  {
    var n := |cs| - 1;
    forall i: nat | i < n ensures StaleAt(s, cs[..n], i) <==> StaleAt(s, cs, i) {
      PrefixStale(s, cs, n, i);
    }
    assert forall i: nat :: StaleAt(s, cs, i) ==> i < |cs|;
    assert forall i: nat :: StaleAt(s, cs[..n], i) ==> i < n;
  }

  /** Once the pre-checks passed and nothing overtakes, the loop follows the pre-check's heads, and
      goes through if and only if no candidate is stale. */
  lemma {:induction false} LoopAcceptsIff(l: Limits, s: State, cs: seq<Candidate>)
    requires ValidLimits(l) && StorageInv(l, s) && Covered(s) && NoneOvertakes(s, cs)
    requires ReceiptPrecheck(s, cs).None? && Simulate(s.cursors, cs).Ok?
    ensures LoopFollows(l, s, cs)
    ensures AddLoop(l, s, cs).error.None? <==> NoneStale(s, cs)
  {
    assert Exclusive(s);
    if |cs| == 0 {
      NothingMentioned(s);
    } else {
      var n := |cs| - 1;
      PrefixOvertakes(s, cs, n);
      PrefixChecks(s, cs, n);
      NoneStaleSplits(s, cs);
      assert !OvertakesAt(s, cs, n);
      hide StorageInv, Covered, NoneOvertakes, MidBatch, SameHeads, ReceiptPrecheck, Simulate, StaleAt, OvertakesAt;
      hide AddOne, Exclusive;
      LoopAcceptsIff(l, s, cs[..n]);
      if AddLoop(l, s, cs[..n]).error.None? {
        LoopFollowsStep(l, s, cs);
      }
    }
  }

  // ---- when the pre-check follows the loop ----

  ghost predicate FollowsAt(l: Limits, s: State, cs: seq<Candidate>, n: nat)
    requires n <= |cs| && Simulate(s.cursors, cs[..n]).Ok?
  {
    AddLoop(l, s, cs[..n]).error.None? ==>
      SameHeads(AddLoop(l, s, cs[..n]).state.cursors, Simulate(s.cursors, cs[..n]).value)
  }

  lemma {:induction false} AcceptedPrefix(l: Limits, s: State, cs: seq<Candidate>, n: nat)
    requires AddLoop(l, s, cs).error.None? && n <= |cs|
    ensures AddLoop(l, s, cs[..n]).error.None?
  {
    if n == |cs| {
      assert cs[..n] == cs;
    } else {
      AcceptedPrefix(l, s, cs[..|cs| - 1], n);
      assert cs[..|cs| - 1][..n] == cs[..n];
    }
  }

  /** An overtaking candidate is accepted, and only the simulated head moves. */
  lemma OvertakingParts(l: Limits, s: State, seen: map<string, Receipt>, now: State, sim: Cursors, c: Candidate)
    requires Exclusive(s) && MidBatch(s, seen, now) && SameHeads(now.cursors, sim)
    requires BatchMismatch(s, seen, c).None? && SimulateOne(sim, c).Ok?
    requires Overtakes(s, sim, c) && Covered(now)
    ensures AddOne(l, now, c).Ok? && !SameHeads(AddOne(l, now, c).value.cursors, SimulateOne(sim, c).value)
  {
    var id := c.event.eventId;
    MidMismatch(s, seen, now, c);
    MidStale(l, s, seen, now, sim, c);
    assert IsCovered(now.cursors, id, ReceiptOf(now.pending.entries[id]));
    assert id !in seen;
    assert NextCursors(now, c) == now.cursors;
  }

  lemma FollowsUntilOvertaken(l: Limits, s: State, cs: seq<Candidate>, i: nat)
    requires ValidLimits(l) && StorageInv(l, s) && Covered(s)
    requires ReceiptPrecheck(s, cs).None? && Simulate(s.cursors, cs).Ok?
    requires i < |cs| && OvertakesAt(s, cs, i) && AddLoop(l, s, cs[..i]).error.None?
    requires forall j: nat :: j < i ==> !OvertakesAt(s, cs, j)
    ensures Simulate(s.cursors, cs[..i + 1]).Ok? && !FollowsAt(l, s, cs, i + 1)
  {
    var init := cs[..i];
    assert cs[..i + 1][..i] == init && cs[..i + 1][i] == cs[i];
    assert Exclusive(s);
    PrefixChecks(s, cs, i);
    PrefixChecks(s, cs, i + 1);
    forall j: nat | j < i ensures !OvertakesAt(s, init, j) {
      PrefixStale(s, cs, i, j);
    }
    LoopAcceptsIff(l, s, init);
    hide MidBatch, Covered, SameHeads, StorageInv, AddOne, Exclusive, BatchMismatch, SimulateOne, Overtakes;
    OvertakingParts(l, s, FirstReceipts(init), AddLoop(l, s, init).state, Simulate(s.cursors, init).value, cs[i]);
  }

  /** Up to the first overtaking candidate, the loop goes through unless a candidate is stale. */
  lemma AcceptedBeforeOvertaking(l: Limits, s: State, cs: seq<Candidate>, i: nat)
    requires ValidLimits(l) && StorageInv(l, s) && Covered(s)
    requires ReceiptPrecheck(s, cs).None? && Simulate(s.cursors, cs).Ok?
    requires i <= |cs| && forall j: nat :: j < i ==> !OvertakesAt(s, cs, j)
    ensures ReceiptPrecheck(s, cs[..i]).None? && Simulate(s.cursors, cs[..i]).Ok? && NoneOvertakes(s, cs[..i])
    ensures AddLoop(l, s, cs[..i]).error.None? <==> forall j: nat :: j < i ==> !StaleAt(s, cs, j)
  {
    hide StorageInv, Covered, SameHeads, MidBatch, AddLoop, OvertakesAt;
    PrefixChecks(s, cs, i);
    forall j: nat | j < i ensures StaleAt(s, cs[..i], j) <==> StaleAt(s, cs, j)
      ensures OvertakesAt(s, cs[..i], j) <==> OvertakesAt(s, cs, j) {
      PrefixStale(s, cs, i, j);
    }
    assert forall j: nat :: StaleAt(s, cs[..i], j) ==> j < i;
    hide ReceiptPrecheck, Simulate, StaleAt;
    LoopAcceptsIff(l, s, cs[..i]);
  }

  /** Whatever overtakes comes after a stale candidate, so the loop never gets there. */
  ghost predicate StaleBeforeOvertaking(s: State, cs: seq<Candidate>) {
    forall i: nat :: i < |cs| && OvertakesAt(s, cs, i) ==> StaleBefore(s, cs, i)
  }

  ghost predicate StaleBefore(s: State, cs: seq<Candidate>, i: nat) {
    exists j: nat :: j < i && StaleAt(s, cs, j)
  }

  lemma FollowsWhileNotOvertaken(l: Limits, s: State, cs: seq<Candidate>, n: nat)
    requires ValidLimits(l) && StorageInv(l, s) && Covered(s)
    requires ReceiptPrecheck(s, cs).None? && Simulate(s.cursors, cs).Ok?
    requires n <= |cs| && AddLoop(l, s, cs[..n]).error.None? && StaleBeforeOvertaking(s, cs)
    ensures Simulate(s.cursors, cs[..n]).Ok? && FollowsAt(l, s, cs, n)
  {
    hide StorageInv, Covered, SameHeads, MidBatch, ReceiptPrecheck, Simulate, AddLoop, OvertakesAt, StaleAt;
    if i: nat :| i < n && OvertakesAt(s, cs, i) {
      var first := FirstOvertaking(s, cs, i);
      assert cs[..n][..first] == cs[..first];
      AcceptedPrefix(l, s, cs[..n], first);
      AcceptedBeforeOvertaking(l, s, cs, first);
      assert false;
    } else {
      AcceptedBeforeOvertaking(l, s, cs, n);
      LoopAcceptsIff(l, s, cs[..n]);
    }
  }

  lemma SomewhereNotFollowing(l: Limits, s: State, cs: seq<Candidate>) returns (n: nat)
    requires ValidLimits(l) && StorageInv(l, s) && Covered(s)
    requires ReceiptPrecheck(s, cs).None? && Simulate(s.cursors, cs).Ok? && !StaleBeforeOvertaking(s, cs)
    ensures n <= |cs| && Simulate(s.cursors, cs[..n]).Ok? && !FollowsAt(l, s, cs, n)
  {
    hide StorageInv, Covered, SameHeads, MidBatch, ReceiptPrecheck, Simulate, AddLoop, OvertakesAt, StaleAt, FollowsAt;
    var i: nat :| i < |cs| && OvertakesAt(s, cs, i) && !StaleBefore(s, cs, i);
    var first := FirstOvertaking(s, cs, i);
    AcceptedBeforeOvertaking(l, s, cs, first);
    FollowsUntilOvertaken(l, s, cs, first);
    n := first + 1;
  }

  /** The position pre-check simulates the loop's heads at every accepted prefix if and only if
      every overtaking candidate comes after a stale one. */
  lemma PrecheckFollowsIff(l: Limits, s: State, cs: seq<Candidate>)
    requires ValidLimits(l) && StorageInv(l, s) && Covered(s)
    requires ReceiptPrecheck(s, cs).None? && Simulate(s.cursors, cs).Ok?
    ensures forall n: nat :: n <= |cs| ==> Simulate(s.cursors, cs[..n]).Ok?
    ensures (forall n: nat :: n <= |cs| ==> FollowsAt(l, s, cs, n)) <==> StaleBeforeOvertaking(s, cs)
  {
    forall n: nat | n <= |cs| ensures Simulate(s.cursors, cs[..n]).Ok? {
      PrefixChecks(s, cs, n);
    }
    hide StorageInv, Covered, SameHeads, ReceiptPrecheck, Simulate, AddLoop, StaleBeforeOvertaking;
    if StaleBeforeOvertaking(s, cs) {
      forall n: nat | n <= |cs| && AddLoop(l, s, cs[..n]).error.None? ensures FollowsAt(l, s, cs, n) {
        FollowsWhileNotOvertaken(l, s, cs, n);
      }
    } else {
      var n := SomewhereNotFollowing(l, s, cs);
    }
  }

  lemma FirstOvertaking(s: State, cs: seq<Candidate>, i: nat) returns (j: nat)
    requires i < |cs| && OvertakesAt(s, cs, i)
    ensures j <= i && OvertakesAt(s, cs, j) && forall k: nat :: k < j ==> !OvertakesAt(s, cs, k)
  {
    j := 0;
    while !OvertakesAt(s, cs, j)
      invariant j <= i && forall k: nat :: k < j ==> !OvertakesAt(s, cs, k)
      decreases i - j
    {
      j := j + 1;
    }
  }

  // ---- what an accepted prefix changes ----

  /** The event the batch last supplied under an id. */
  function LastCopy(e: Event, cs: seq<Candidate>, id: string): Event {
    if |cs| == 0 then e
    else if cs[|cs| - 1].event.eventId == id then cs[|cs| - 1].event
    else LastCopy(e, cs[..|cs| - 1], id)
  }

  /** Receipt recency after the batch: each named receipt moves to the end. */
  function Touched(order: seq<string>, cs: seq<Candidate>): seq<string> {
    if |cs| == 0 then order else
    var before := Touched(order, cs[..|cs| - 1]);
    var id := cs[|cs| - 1].event.eventId;
    if id in order then Without(before, id) + [id] else before
  }

  /** The candidate repeats a dispatched event, or a pending one at its version. */
  predicate Repeats(s: State, c: Candidate) {
    s.dispatched.Has(c.event.eventId) || (s.pending.Has(c.event.eventId) && !IsVersionRefresh(s, c))
  }

  ghost predicate OnlyRepeats(s: State, cs: seq<Candidate>) {
    forall c :: c in cs ==> Repeats(s, c)
  }

  /** The batch supplies nothing that the outbox does not hold already: repeats only, the pending
      ones as stored, and the receipts in the order of recency they have. */
  ghost predicate AddsNothing(s: State, cs: seq<Candidate>) {
    && OnlyRepeats(s, cs)
    && (forall id :: id in s.pending.entries ==>
        LastCopy(s.pending.entries[id].event, cs, id) == s.pending.entries[id].event)
    && Touched(s.dispatched.order, cs) == s.dispatched.order
  }

  /** What a batch of repeats does: pending records take the latest copy of their event, and
      receipts move in recency. */
  ghost predicate IsRepeated(s: State, cs: seq<Candidate>, now: State) {
    && now.cursors == s.cursors && now.dead == s.dead
    && now.pending.order == s.pending.order && now.pending.entries.Keys == s.pending.entries.Keys
    && (forall id :: id in s.pending.entries ==>
          now.pending.entries[id] == s.pending.entries[id].(event := LastCopy(s.pending.entries[id].event, cs, id)))
    && now.dispatched.entries == s.dispatched.entries && now.dispatched.order == Touched(s.dispatched.order, cs)
  }

  lemma EvictsNothing(max: nat, d: OrderedMap<string, Receipt>)
    requires d.Size() <= max
    ensures Evict(max, d) == d
  {
  }

  lemma MovesToEnd(d: OrderedMap<string, Receipt>, id: string)
    requires d.Valid() && d.Has(id)
    ensures d.Delete(id).Set(id, d.entries[id]) == OrderedMap(Without(d.order, id) + [id], d.entries)
    ensures |Without(d.order, id)| == |d.order| - 1
  {
    WithoutDistinct(d.order, id);
    hide Without;
    assert (d.entries - {id})[id := d.entries[id]] == d.entries;
  }

  lemma TouchReceipt(max: nat, d: OrderedMap<string, Receipt>, id: string)
    requires d.Valid() && d.Size() <= max && d.Has(id)
    ensures RememberDispatched(max, d, id, d.entries[id]) == OrderedMap(Without(d.order, id) + [id], d.entries)
  {
    MovesToEnd(d, id);
    hide Without;
    EvictsNothing(max, OrderedMap(Without(d.order, id) + [id], d.entries));
  }

  lemma RepeatStep(l: Limits, s: State, cs: seq<Candidate>, now: State)
    requires ValidLimits(l) && StorageInv(l, now) && s.dispatched.Valid() && |cs| > 0
    requires IsRepeated(s, cs[..|cs| - 1], now)
    requires var id := cs[|cs| - 1].event.eventId; s.pending.Has(id) || s.dispatched.Has(id)
    requires AddOne(l, now, cs[|cs| - 1]).Ok? && !IsVersionRefresh(now, cs[|cs| - 1])
    ensures IsRepeated(s, cs, AddOne(l, now, cs[|cs| - 1]).value)
  {
    var c := cs[|cs| - 1];
    var id := c.event.eventId;
    AddOneOnKnown(l, now, c);
    if now.dispatched.Has(id) {
      TouchReceipt(l.maxRetained, now.dispatched, id);
    }
    hide AddOne, IsVersionRefresh, RememberDispatched;
  }

  lemma {:induction false} RepeatsChange(l: Limits, s: State, cs: seq<Candidate>)
    requires ValidLimits(l) && StorageInv(l, s) && HasHeads(s) && OnlyRepeats(s, cs)
    requires ReceiptPrecheck(s, cs).None? && AddLoop(l, s, cs).error.None?
    ensures IsRepeated(s, cs, AddLoop(l, s, cs).state)
  {
    if |cs| > 0 {
      var init, c := cs[..|cs| - 1], cs[|cs| - 1];
      assert c in cs && forall x :: x in init ==> x in cs;
      assert s.dispatched.Valid() && Exclusive(s) && Repeats(s, c) && OnlyRepeats(s, init);
      hide HasHeads, StorageInv, Exclusive, MidBatch, SameHeads, SourcesKnown, IsRepeated, IsVersionRefresh, AddOne;
      hide OnlyRepeats;
      RepeatsChange(l, s, init);
      LoopGoesIff(l, s, init);
      MidMismatch(s, FirstReceipts(init), AddLoop(l, s, init).state, c);
      RepeatStep(l, s, cs, AddLoop(l, s, init).state);
    }
  }

  /** A batch that passed the receipt check mentions each event at one position. */
  lemma {:induction false} MentionedOnce(s: State, cs: seq<Candidate>, c: Candidate)
    requires ReceiptPrecheck(s, cs).None? && c in cs
    ensures c.event.eventId in FirstReceipts(cs) && FirstReceipts(cs)[c.event.eventId] == Receipt(c.source, c.position)
  {
    var init, last := cs[..|cs| - 1], cs[|cs| - 1];
    if c in init {
      MentionedOnce(s, init, c);
    } else {
      assert c == last;
    }
  }

  /** An accepted batch leaves the state as it was if and only if it adds nothing. */
  lemma UnchangedIff(l: Limits, s: State, cs: seq<Candidate>)
    requires ValidLimits(l) && StorageInv(l, s) && HasHeads(s)
    requires ReceiptPrecheck(s, cs).None? && AddLoop(l, s, cs).error.None?
    ensures AddLoop(l, s, cs).state == s <==> AddsNothing(s, cs)
  {
    var now := AddLoop(l, s, cs).state;
    if OnlyRepeats(s, cs) {
      RepeatsChange(l, s, cs);
      hide HasHeads, StorageInv, AddLoop, OnlyRepeats;
      if AddsNothing(s, cs) {
        assert now.pending.entries == s.pending.entries;
      }
    } else {
      var c :| c in cs && !Repeats(s, c);
      LoopGoesIff(l, s, cs);
      MentionedOnce(s, cs, c);
      hide HasHeads, StorageInv, AddLoop, OnlyRepeats, SameHeads, SourcesKnown;
      assert now.pending.Has(c.event.eventId);
      assert ReceiptOf(now.pending.entries[c.event.eventId]) == Receipt(c.source, c.position);
    }
  }

  // ---- the exact condition ----

  /** `add` succeeds if and only if the pre-checks pass and no guard fails in the loop; a failing
      guard leaves exactly the prefix before it. */
  lemma AddAcceptsIff(l: Limits, s: State, cs: seq<Candidate>)
    requires ValidLimits(l) && StorageInv(l, s) && HasHeads(s)
    ensures Add(l, s, cs).error.None? <==> Precheck(l, s, cs).None? && NoneBlocked(s, cs)
    ensures forall i: nat :: Precheck(l, s, cs).None? && IsFirstBlocked(s, cs, i) ==>
              && AddLoop(l, s, cs[..i]).error.None?
              && Add(l, s, cs) == AddOutcome(AddLoop(l, s, cs[..i]).state, BlockedAt(s, cs, i))
  {
    hide HasHeads, CapacityPrecheck;
    if Precheck(l, s, cs).None? {
      LoopGoesIff(l, s, cs);
      forall i: nat | IsFirstBlocked(s, cs, i)
        ensures AddLoop(l, s, cs[..i]).error.None?
        ensures Add(l, s, cs) == AddOutcome(AddLoop(l, s, cs[..i]).state, BlockedAt(s, cs, i)) {
        StopsAtFirstBlocked(l, s, cs, i);
      }
    }
  }

  lemma PrefixUnchangedIff(l: Limits, s: State, cs: seq<Candidate>, i: nat)
    requires ValidLimits(l) && StorageInv(l, s) && HasHeads(s) && i <= |cs|
    requires Precheck(l, s, cs).None? && AddLoop(l, s, cs[..i]).error.None?
    ensures AddLoop(l, s, cs[..i]).state == s <==> AddsNothing(s, cs[..i])
  {
    PrefixReceipts(s, cs, i);
    UnchangedIff(l, s, cs[..i]);
  }

  lemma FirstBlocked(s: State, cs: seq<Candidate>) returns (i: nat)
    requires !NoneBlocked(s, cs)
    ensures IsFirstBlocked(s, cs, i)
  {
    i := 0;
    while BlockedAt(s, cs, i).None?
      invariant forall j: nat :: j < i ==> BlockedAt(s, cs, j).None?
      invariant i <= |cs|
      decreases |cs| - i
    {
      i := i + 1;
    }
  }

  /** A pre-check rejects the batch, or nothing is added before the first guard that fails. */
  ghost predicate StopsCleanly(l: Limits, s: State, cs: seq<Candidate>) {
    Precheck(l, s, cs).None? ==> forall i: nat :: IsFirstBlocked(s, cs, i) ==> AddsNothing(s, cs[..i])
  }

  /** `add` is all-or-nothing if and only if a pre-check rejects the batch, no guard fails in the
      loop, or nothing is added before the first one that does. */
  lemma AllOrNothingIff(l: Limits, s: State, cs: seq<Candidate>)
    requires ValidLimits(l) && StorageInv(l, s) && HasHeads(s)
    ensures (Add(l, s, cs).error.Some? ==> Add(l, s, cs).state == s) <==> StopsCleanly(l, s, cs)
  {
    hide StorageInv, HasHeads, AddsNothing;
    AddAcceptsIff(l, s, cs);
    if Precheck(l, s, cs).None? {
      forall i: nat | IsFirstBlocked(s, cs, i) ensures Add(l, s, cs).state == s <==> AddsNothing(s, cs[..i]) {
        PrefixUnchangedIff(l, s, cs, i);
      }
      if !NoneBlocked(s, cs) {
        var i := FirstBlocked(s, cs);
      }
    }
  }

  lemma CoveredHasHeads(s: State)
    requires Covered(s)
    ensures HasHeads(s)
  {
    forall id | id in s.pending.entries ensures s.pending.entries[id].source in s.cursors {
      assert IsCovered(s.cursors, id, ReceiptOf(s.pending.entries[id]));
    }
    forall id | id in s.dead.entries ensures s.dead.entries[id].source in s.cursors {
      assert IsCovered(s.cursors, id, ReceiptOf(s.dead.entries[id]));
    }
  }

  /** For a batch that overtakes nothing the only guard that can fail is the stale head, judged by
      the heads the pre-check itself simulated. */
  lemma OnlyStaleBlocks(l: Limits, s: State, h: History, cs: seq<Candidate>)
    requires ValidLimits(l) && Inv(l, s, h) && NoneOvertakes(s, cs) && Precheck(l, s, cs).None?
    ensures NoneBlocked(s, cs) <==> NoneStale(s, cs)
    ensures Add(l, s, cs).error in {None, Some(StaleHead)}
  {
    ChainIsCovered(s, h);
    CoveredHasHeads(s);
    hide ChainInv, WithinLimits, Covered, HasHeads, CapacityPrecheck, NoneOvertakes;
    LoopGoesIff(l, s, cs);
    LoopAcceptsIff(l, s, cs);
  }
}
