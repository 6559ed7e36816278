/** The commit chain behind the outbox: the history of every eventful commit per source,
    and what each operation keeps about it. */
module OutboxChain {
  import opened Common
  import opened OrderedMaps
  import opened Outboxes

  /** Per source, every eventful commit ever finalised, oldest first. */
  type History = map<Address, seq<Cursor>>

  ghost predicate HasOwner(commit: Cursor) { exists k :: k in commit.owners }

  /** One strictly increasing chain of versions linked from genesis; every commit has an event. */
  ghost predicate Linked(chain: seq<Cursor>) {
    && |chain| > 0
    && chain[0].previous.None?
    && (forall i :: 0 <= i < |chain| ==> HasOwner(chain[i]))
    && forall i :: 0 < i < |chain| ==>
         && chain[i].previous == Some(chain[i - 1].aggregateVersion)
         && chain[i - 1].aggregateVersion < chain[i].aggregateVersion
  }

  /** The commit finalised this event at this position. */
  predicate Owns(commit: Cursor, id: string, p: Position) {
    && commit.aggregateVersion == p.aggregateVersion
    && commit.commitSize == p.commitSize
    && commit.previous == p.previous
    && p.commitSequence in commit.owners
    && commit.owners[p.commitSequence] == id
  }

  ghost predicate Finalized(h: History, source: Address, id: string, p: Position) {
    source in h && exists i :: 0 <= i < |h[source]| && Owns(h[source][i], id, p)
  }

  /** The same commit facts, for a receipt that does not keep the predecessor. */
  predicate OwnsCandidate(commit: Cursor, id: string, p: CandidatePosition) {
    && commit.aggregateVersion == p.aggregateVersion
    && commit.commitSize == p.commitSize
    && p.commitSequence in commit.owners
    && commit.owners[p.commitSequence] == id
  }

  ghost predicate FinalizedCandidate(h: History, source: Address, id: string, p: CandidatePosition) {
    source in h && exists i :: 0 <= i < |h[source]| && OwnsCandidate(h[source][i], id, p)
  }

  ghost predicate HeadsAreLast(heads: Cursors, h: History) {
    && h.Keys == heads.Keys
    && forall a :: a in h ==> Linked(h[a]) && h[a][|h[a]| - 1] == heads[a]
  }

  ghost predicate RecordsFinalized(m: OrderedMap<string, Record>, h: History) {
    forall id :: id in m.entries ==>
      && m.entries[id].dispatchId == id
      && m.entries[id].event.eventId == id
      && Finalized(h, m.entries[id].source, id, m.entries[id].position)
  }

  ghost predicate ReceiptsFinalized(m: OrderedMap<string, Receipt>, h: History) {
    forall id :: id in m.entries ==> FinalizedCandidate(h, m.entries[id].source, id, m.entries[id].position)
  }

  /** The chain invariant: heads are the last links, and everything stored was finalised. */
  ghost predicate ChainInv(s: State, h: History) {
    && HeadsAreLast(s.cursors, h)
    && RecordsFinalized(s.pending, h)
    && RecordsFinalized(s.dead, h)
    && ReceiptsFinalized(s.dispatched, h)
  }

  /** The delivery states of an event are exclusive and the attempt ceiling separates them. */
  ghost predicate StorageInv(l: Limits, s: State) {
    && s.pending.Valid() && s.dead.Valid() && s.dispatched.Valid()
    && s.dispatched.Size() <= l.maxRetained
    && s.pending.entries.Keys !! s.dead.entries.Keys
    && s.pending.entries.Keys !! s.dispatched.entries.Keys
    && s.dead.entries.Keys !! s.dispatched.entries.Keys
    && (forall id :: id in s.pending.entries ==> s.pending.entries[id].attempts < l.maxDeliveryAttempts)
    && (forall id :: id in s.dead.entries ==> s.dead.entries[id].attempts == l.maxDeliveryAttempts)
  }

  /** Configured capacities hold. */
  ghost predicate WithinLimits(l: Limits, s: State) {
    && (l.maxRecords.Some? ==> s.pending.Size() + s.dead.Size() <= l.maxRecords.value)
    && (l.maxSources.Some? ==> |s.cursors| <= l.maxSources.value)
  }

  // ---- chain facts ----

  lemma {:induction false} LinkedIncreases(chain: seq<Cursor>, i: nat, j: nat)
    requires Linked(chain) && i < j < |chain|
    ensures chain[i].aggregateVersion < chain[j].aggregateVersion
  {
    if i + 1 < j {
      LinkedIncreases(chain, i, j - 1);
    }
  }

  lemma SameVersionSameLink(chain: seq<Cursor>, i: nat, j: nat)
    requires Linked(chain) && i < |chain| && j < |chain|
    requires chain[i].aggregateVersion == chain[j].aggregateVersion
    ensures i == j
  {
    if i < j { LinkedIncreases(chain, i, j); }
    if j < i { LinkedIncreases(chain, j, i); }
  }

  lemma SamePreviousSameLink(chain: seq<Cursor>, i: nat, j: nat)
    requires Linked(chain) && i < |chain| && j < |chain|
    requires chain[i].previous == chain[j].previous
    ensures i == j
  {
    assert 0 < i ==> chain[i].previous == Some(chain[i - 1].aggregateVersion);
    assert 0 < j ==> chain[j].previous == Some(chain[j - 1].aggregateVersion);
    if 0 < i && 0 < j {
      SameVersionSameLink(chain, i - 1, j - 1);
    }
  }

  /** One qualified position identifies one event, one commit size and one predecessor. */
  lemma PositionIdentifiesEvent(s: State, h: History, source: Address, id1: string, p1: Position, id2: string,
                                p2: Position)
    requires HeadsAreLast(s.cursors, h)
    requires Finalized(h, source, id1, p1) && Finalized(h, source, id2, p2)
    requires p1.aggregateVersion == p2.aggregateVersion
    ensures p1.commitSize == p2.commitSize && p1.previous == p2.previous
    ensures p1.commitSequence == p2.commitSequence ==> id1 == id2 && p1 == p2
  {
    var i :| 0 <= i < |h[source]| && Owns(h[source][i], id1, p1);
    var j :| 0 <= j < |h[source]| && Owns(h[source][j], id2, p2);
    SameVersionSameLink(h[source], i, j);
  }

  /** The predecessor named by a finalised position is the greatest earlier eventful version,
      and only the first commit of a source has none. */
  lemma PredecessorIsAdjacent(s: State, h: History, source: Address, id1: string, p1: Position, id2: string,
                              p2: Position)
    requires HeadsAreLast(s.cursors, h)
    requires Finalized(h, source, id1, p1) && Finalized(h, source, id2, p2)
    requires p2.aggregateVersion < p1.aggregateVersion
    ensures p1.previous.Some? && p2.aggregateVersion <= p1.previous.value < p1.aggregateVersion
  {
    var i :| 0 <= i < |h[source]| && Owns(h[source][i], id1, p1);
    var j :| 0 <= j < |h[source]| && Owns(h[source][j], id2, p2);
    if i < j { LinkedIncreases(h[source], i, j); }
    if j < i - 1 { LinkedIncreases(h[source], j, i - 1); }
  }

  /** Nothing is finalised past the source head. */
  lemma HeadIsNewest(s: State, h: History, source: Address, id: string, p: CandidatePosition)
    requires HeadsAreLast(s.cursors, h) && FinalizedCandidate(h, source, id, p)
    ensures source in s.cursors && p.aggregateVersion <= s.cursors[source].aggregateVersion
    ensures p.aggregateVersion == s.cursors[source].aggregateVersion ==>
              OwnsCandidate(s.cursors[source], id, p)
  {
    var chain := h[source];
    var i :| 0 <= i < |chain| && OwnsCandidate(chain[i], id, p);
    if i < |chain| - 1 { LinkedIncreases(chain, i, |chain| - 1); }
  }

  lemma FinalizedForgetsLink(h: History, source: Address, id: string, p: Position)
    requires Finalized(h, source, id, p)
    ensures FinalizedCandidate(h, source, id, Unlinked(p))
  {
    var i :| 0 <= i < |h[source]| && Owns(h[source][i], id, p);
    assert OwnsCandidate(h[source][i], id, Unlinked(p));
  }

  // ---- growth of the history ----

  /** The commit gains owners at unowned sequences only. */
  predicate CommitGrows(before: Cursor, after: Cursor) {
    && after.aggregateVersion == before.aggregateVersion
    && after.previous == before.previous
    && after.commitSize == before.commitSize
    && before.owners.Keys <= after.owners.Keys
    && forall k :: k in before.owners ==> after.owners[k] == before.owners[k]
  }

  /** New links go to the end; only the last old link may gain owners. */
  ghost predicate ChainGrows(before: seq<Cursor>, after: seq<Cursor>) {
    && |before| <= |after|
    && forall i :: 0 <= i < |before| ==> CommitGrows(before[i], after[i])
  }

  ghost predicate Grows(before: History, after: History) {
    forall a :: a in before ==> a in after && ChainGrows(before[a], after[a])
  }

  lemma GrowsKeepsFinalized(before: History, after: History, source: Address, id: string, p: Position)
    requires Grows(before, after) && Finalized(before, source, id, p)
    ensures Finalized(after, source, id, p)
  {
    var i :| 0 <= i < |before[source]| && Owns(before[source][i], id, p);
    assert CommitGrows(before[source][i], after[source][i]);
    assert Owns(after[source][i], id, p);
  }

  lemma GrowsKeepsReceipt(before: History, after: History, source: Address, id: string, p: CandidatePosition)
    requires Grows(before, after) && FinalizedCandidate(before, source, id, p)
    ensures FinalizedCandidate(after, source, id, p)
  {
    var i :| 0 <= i < |before[source]| && OwnsCandidate(before[source][i], id, p);
    assert CommitGrows(before[source][i], after[source][i]);
    assert OwnsCandidate(after[source][i], id, p);
  }

  lemma GrowsTransitive(a: History, b: History, c: History)
    requires Grows(a, b) && Grows(b, c)
    ensures Grows(a, c)
  {
    forall x | x in a ensures x in c && ChainGrows(a[x], c[x]) {
      assert ChainGrows(a[x], b[x]) && ChainGrows(b[x], c[x]);
      forall i | 0 <= i < |a[x]| ensures CommitGrows(a[x][i], c[x][i]) {
        assert CommitGrows(a[x][i], b[x][i]) && CommitGrows(b[x][i], c[x][i]);
      }
    }
  }

  lemma GrowsKeepsRecords(before: History, after: History, m: OrderedMap<string, Record>)
    requires Grows(before, after) && RecordsFinalized(m, before)
    ensures RecordsFinalized(m, after)
  {
    forall id | id in m.entries ensures Finalized(after, m.entries[id].source, id, m.entries[id].position) {
      GrowsKeepsFinalized(before, after, m.entries[id].source, id, m.entries[id].position);
    }
  }

  lemma GrowsKeepsReceipts(before: History, after: History, m: OrderedMap<string, Receipt>)
    requires Grows(before, after) && ReceiptsFinalized(m, before)
    ensures ReceiptsFinalized(m, after)
  {
    forall id | id in m.entries ensures FinalizedCandidate(after, m.entries[id].source, id, m.entries[id].position) {
      GrowsKeepsReceipt(before, after, m.entries[id].source, id, m.entries[id].position);
    }
  }

  // ---- one candidate ----

  predicate IsFresh(s: State, c: Candidate) {
    !IsKnown(s, c.event.eventId)
  }

  /** One source's chain after a fresh event: a new owner in the last commit, or a new commit. */
  function ExtendChain(chain: seq<Cursor>, p: CandidatePosition, id: string): seq<Cursor> {
    if |chain| == 0 then [FreshCursor(None, p, id)] else
    var last := chain[|chain| - 1];
    if last.aggregateVersion != p.aggregateVersion then chain + [FreshCursor(Some(last.aggregateVersion), p, id)]
    else if p.commitSequence in last.owners then chain
    else chain[|chain| - 1 := CursorWithEvent(last, p.commitSequence, id)]
  }

  function ChainOf(h: History, a: Address): seq<Cursor> {
    if a in h then h[a] else []
  }

  /** The history after an accepted candidate: only a fresh event extends it. */
  function NextHistory(s: State, h: History, c: Candidate): History {
    if IsFresh(s, c) then h[c.source := ExtendChain(ChainOf(h, c.source), c.position, c.event.eventId)] else h
  }

  /** The last commit admits the candidate: not past it, same size, sequence free or its own. */
  ghost predicate Admits(chain: seq<Cursor>, p: CandidatePosition, id: string) {
    |chain| > 0 ==>
      var last := chain[|chain| - 1];
      && last.aggregateVersion <= p.aggregateVersion
      && (last.aggregateVersion == p.aggregateVersion ==>
            && last.commitSize == p.commitSize
            && (p.commitSequence in last.owners ==> last.owners[p.commitSequence] == id))
  }

  lemma ExtendChainLinks(chain: seq<Cursor>, p: CandidatePosition, id: string)
    requires |chain| > 0 ==> Linked(chain)
    requires Admits(chain, p, id)
    ensures Linked(ExtendChain(chain, p, id))
    ensures ChainGrows(chain, ExtendChain(chain, p, id))
  {
    var after := ExtendChain(chain, p, id);
    assert p.commitSequence in after[|after| - 1].owners;
  }

  lemma ExtendChainOwns(chain: seq<Cursor>, p: CandidatePosition, id: string)
    requires Admits(chain, p, id)
    ensures var after := ExtendChain(chain, p, id);
            && |after| > 0
            && OwnsCandidate(after[|after| - 1], id, p)
  {
  }

  /** The loop accepts a fresh candidate. */
  predicate AcceptsFresh(s: State, c: Candidate) {
    IsFresh(s, c) && !IsStale(s, c) && HeadConflict(s.cursors, c).None?
  }

  function StoreFresh(s: State, c: Candidate): State {
    s.(cursors := NextCursors(s, c), pending := s.pending.Set(c.event.eventId, NextRecord(s, c)))
  }

  lemma AddOneOnFresh(l: Limits, s: State, c: Candidate)
    requires IsFresh(s, c)
    ensures AddOne(l, s, c).Ok? <==> AcceptsFresh(s, c)
    ensures AddOne(l, s, c).Ok? ==> AddOne(l, s, c).value == StoreFresh(s, c)
  {
    assert StoredMismatch(s, c).None?;
  }

  lemma FreshHead(s: State, h: History, c: Candidate)
    requires HeadsAreLast(s.cursors, h) && AcceptsFresh(s, c)
    ensures Admits(ChainOf(h, c.source), c.position, c.event.eventId)
    ensures var after := ExtendChain(ChainOf(h, c.source), c.position, c.event.eventId);
            && |after| > 0
            && NextCursors(s, c) == s.cursors[c.source := after[|after| - 1]]
            && NextPrevious(s, c) == after[|after| - 1].previous
  {
    if c.source in h {
      assert h[c.source][|h[c.source]| - 1] == s.cursors[c.source];
    } else {
      assert c.source !in s.cursors;
    }
  }

  lemma HeadsExtend(heads: Cursors, h: History, a: Address, after: seq<Cursor>)
    requires HeadsAreLast(heads, h) && Linked(after)
    ensures HeadsAreLast(heads[a := after[|after| - 1]], h[a := after])
  {
    hide Linked;
  }

  lemma ChainGrowsReflexive(chain: seq<Cursor>)
    ensures ChainGrows(chain, chain)
  {
  }

  lemma GrowsAt(h: History, a: Address, after: seq<Cursor>)
    requires ChainGrows(ChainOf(h, a), after)
    ensures Grows(h, h[a := after])
  {
    forall x | x in h ensures ChainGrows(h[x], h[a := after][x]) {
      if x != a {
        ChainGrowsReflexive(h[x]);
      }
    }
  }

  lemma FreshCandidateExtends(s: State, h: History, c: Candidate)
    requires HeadsAreLast(s.cursors, h) && AcceptsFresh(s, c)
    ensures HeadsAreLast(StoreFresh(s, c).cursors, NextHistory(s, h, c))
    ensures Grows(h, NextHistory(s, h, c))
  {
    var before := ChainOf(h, c.source);
    var after := ExtendChain(before, c.position, c.event.eventId);
    FreshHead(s, h, c);
    assert Linked(after) && ChainGrows(before, after) by {
      assert |before| > 0 ==> Linked(before);
      hide HeadsAreLast;
      ExtendChainLinks(before, c.position, c.event.eventId);
    }
    assert NextHistory(s, h, c) == h[c.source := after];
    hide ExtendChain, NextHistory, Admits, NextCursors, Linked, ChainGrows, HeadsAreLast, AcceptsFresh;
    HeadsExtend(s.cursors, h, c.source, after);
    GrowsAt(h, c.source, after);
  }

  lemma FreshCandidateIsFinalized(s: State, h: History, c: Candidate)
    requires HeadsAreLast(s.cursors, h) && AcceptsFresh(s, c)
    ensures Finalized(NextHistory(s, h, c), c.source, c.event.eventId, NextRecord(s, c).position)
  {
    var after := ExtendChain(ChainOf(h, c.source), c.position, c.event.eventId);
    FreshHead(s, h, c);
    hide HeadsAreLast;
    assert Owns(after[|after| - 1], c.event.eventId, NextRecord(s, c).position) by {
      ExtendChainOwns(ChainOf(h, c.source), c.position, c.event.eventId);
    }
    hide ExtendChain, Admits, NextCursors;
    assert NextHistory(s, h, c)[c.source] == after;
  }

  lemma FreshKeepsChain(s: State, h: History, c: Candidate)
    requires ChainInv(s, h) && AcceptsFresh(s, c)
    ensures ChainInv(StoreFresh(s, c), NextHistory(s, h, c))
    ensures Grows(h, NextHistory(s, h, c))
  {
    var h' := NextHistory(s, h, c);
    FreshCandidateExtends(s, h, c);
    FreshCandidateIsFinalized(s, h, c);
    GrowsKeepsRecords(h, h', s.pending);
    GrowsKeepsRecords(h, h', s.dead);
    GrowsKeepsReceipts(h, h', s.dispatched);
  }

  lemma AddOneOnKnown(l: Limits, s: State, c: Candidate)
    requires !IsFresh(s, c) && AddOne(l, s, c).Ok? && !IsVersionRefresh(s, c)
    ensures var id := c.event.eventId;
            AddOne(l, s, c).value ==
            if s.dispatched.Has(id) then
              s.(dispatched := RememberDispatched(l.maxRetained, s.dispatched, id, s.dispatched.entries[id]))
            else if s.dead.Has(id) then Requeue(s, id)
            else s.(pending := s.pending.Set(id, s.pending.entries[id].(event := c.event)))
  {
    var id := c.event.eventId;
    if !s.dispatched.Has(id) && !s.dead.Has(id) {
      assert NextRecord(s, c) == s.pending.entries[id].(event := c.event);
      assert NextCursors(s, c) == s.cursors;
    }
  }

  lemma RequeueKeepsChain(s: State, h: History, id: string)
    requires ChainInv(s, h) && s.dead.Has(id)
    ensures ChainInv(Requeue(s, id), h)
  {
    hide HeadsAreLast, Finalized, FinalizedCandidate;
  }

  lemma ReaddKeepsChain(s: State, h: History, id: string, event: Event)
    requires ChainInv(s, h) && s.pending.Has(id) && event.eventId == id
    ensures ChainInv(s.(pending := s.pending.Set(id, s.pending.entries[id].(event := event))), h)
  {
    hide HeadsAreLast, Finalized, FinalizedCandidate;
  }

  lemma RedeliveryKeepsChain(max: nat, s: State, h: History, id: string)
    requires ChainInv(s, h) && s.dispatched.Has(id)
    ensures ChainInv(s.(dispatched := RememberDispatched(max, s.dispatched, id, s.dispatched.entries[id])), h)
  {
    RememberKeepsReceipts(max, s.dispatched, h, id, s.dispatched.entries[id]);
    hide HeadsAreLast, Finalized, FinalizedCandidate;
  }

  lemma KnownKeepsChain(l: Limits, s: State, h: History, c: Candidate)
    requires ChainInv(s, h) && !IsFresh(s, c) && AddOne(l, s, c).Ok? && !IsVersionRefresh(s, c)
    ensures ChainInv(AddOne(l, s, c).value, h)
  {
    var id := c.event.eventId;
    AddOneOnKnown(l, s, c);
    hide AddOne, ChainInv, RememberDispatched, Requeue;
    if s.dispatched.Has(id) {
      RedeliveryKeepsChain(l.maxRetained, s, h, id);
    } else if s.dead.Has(id) {
      RequeueKeepsChain(s, h, id);
    } else {
      ReaddKeepsChain(s, h, id, c.event);
    }
  }

  /** Every accepted candidate that is not a version refresh keeps the chain invariant, and
      the history only grows at its end. */
  lemma AddOneKeepsChain(l: Limits, s: State, h: History, c: Candidate)
    requires ChainInv(s, h) && AddOne(l, s, c).Ok? && !IsVersionRefresh(s, c)
    ensures ChainInv(AddOne(l, s, c).value, NextHistory(s, h, c))
    ensures Grows(h, NextHistory(s, h, c))
  {
    hide AddOne, ChainInv;
    if IsFresh(s, c) {
      AddOneOnFresh(l, s, c);
      FreshKeepsChain(s, h, c);
    } else {
      KnownKeepsChain(l, s, h, c);
    }
  }

  lemma {:induction false} EvictKeepsReceipts(max: nat, d: OrderedMap<string, Receipt>, h: History)
    requires ReceiptsFinalized(d, h)
    ensures ReceiptsFinalized(Evict(max, d), h)
    decreases |d.order|
  {
    if |d.order| > max {
      EvictKeepsReceipts(max, OrderedMap(d.order[1..], d.entries - {d.order[0]}), h);
    }
  }

  lemma RememberKeepsReceipts(max: nat, d: OrderedMap<string, Receipt>, h: History, id: string, r: Receipt)
    requires ReceiptsFinalized(d, h) && FinalizedCandidate(h, r.source, id, r.position)
    ensures ReceiptsFinalized(RememberDispatched(max, d, id, r), h)
  {
    EvictKeepsReceipts(max, d.Delete(id).Set(id, r), h);
  }

  // ---- version refreshes ----

  /** Every finalised fact is kept, except the former position of an event that the candidate
      moves to another version. */
  ghost predicate KeepsOthers(h: History, h': History, s: State, c: Candidate) {
    forall a, id, p :: Finalized(h, a, id, p) && !IsFormerPosition(s, c, a, id, p) ==> Finalized(h', a, id, p)
  }

  predicate IsFormerPosition(s: State, c: Candidate, a: Address, id: string, p: Position) {
    && IsVersionRefresh(s, c) && a == c.source && id == c.event.eventId
    && p == s.pending.entries[c.event.eventId].position
  }

  predicate OnlySequence(commit: Cursor, sequence: int) {
    forall k :: k in commit.owners ==> k == sequence
  }

  /** The source head is still the commit of the pending event, and that commit holds no other. */
  predicate IsWholeHead(s: State, c: Candidate)
    requires s.pending.Has(c.event.eventId)
  {
    var former := s.pending.entries[c.event.eventId].position;
    && c.source in s.cursors
    && s.cursors[c.source].aggregateVersion == former.aggregateVersion
    && OnlySequence(s.cursors[c.source], former.commitSequence)
  }

  /** The exact condition for the chain: an accepted candidate leaves a consistent history that
      keeps every other finalised fact if and only if it is no version refresh, or moves the one
      event of the head commit. */
  lemma ChainKeptIff(l: Limits, s: State, h: History, c: Candidate)
    requires ChainInv(s, h) && AddOne(l, s, c).Ok?
    ensures (exists h' :: ChainInv(AddOne(l, s, c).value, h') && KeepsOthers(h, h', s, c))
            <==> IsVersionRefresh(s, c) ==> IsWholeHead(s, c)
  {
    if !IsVersionRefresh(s, c) {
      AddOneKeepsChain(l, s, h, c);
      GrowsKeepsOthers(h, NextHistory(s, h, c), s, c);
    } else if IsWholeHead(s, c) {
      HeadRefreshKeepsChain(l, s, h, c);
    } else if h' :| ChainInv(AddOne(l, s, c).value, h') && KeepsOthers(h, h', s, c) {
      OtherRefreshBreaksChain(l, s, h, c, h');
    }
  }

  lemma GrowsKeepsOthers(h: History, h': History, s: State, c: Candidate)
    requires Grows(h, h')
    ensures KeepsOthers(h, h', s, c)
  {
    forall a, id, p | Finalized(h, a, id, p) ensures Finalized(h', a, id, p) {
      GrowsKeepsFinalized(h, h', a, id, p);
    }
  }

  /** What an accepted refresh does to its record. */
  lemma AddOneOnRefresh(l: Limits, s: State, c: Candidate)
    requires AddOne(l, s, c).Ok? && IsVersionRefresh(s, c)
    ensures var id := c.event.eventId;
            var was := s.pending.entries[id];
            && AddOne(l, s, c).value == StoreFresh(s, c)
            && c.source == was.source
            && NextRecord(s, c)
               == was.(event := c.event, position := was.position.(aggregateVersion := c.position.aggregateVersion))
            && was.position.aggregateVersion < c.position.aggregateVersion
            && was.position.commitSequence == c.position.commitSequence
            && was.position.commitSize == c.position.commitSize
  {
  }

  /** The chain with its last commit, which holds only this event, at the later version. */
  function MoveLast(chain: seq<Cursor>, p: CandidatePosition, id: string): seq<Cursor>
    requires |chain| > 0
  {
    chain[|chain| - 1 := FreshCursor(chain[|chain| - 1].previous, p, id)]
  }

  lemma MoveLastLinks(chain: seq<Cursor>, p: CandidatePosition, id: string)
    requires Linked(chain) && chain[|chain| - 1].aggregateVersion < p.aggregateVersion
    ensures Linked(MoveLast(chain, p, id))
  {
    var after := MoveLast(chain, p, id);
    assert p.commitSequence in after[|after| - 1].owners;
  }

  /** This event is all that the last commit of its source holds. */
  ghost predicate IsWholeLast(h: History, a: Address, id: string, p: Position) {
    && a in h && |h[a]| > 0
    && Owns(h[a][|h[a]| - 1], id, p)
    && OnlySequence(h[a][|h[a]| - 1], p.commitSequence)
  }

  ghost function Moved(h: History, a: Address, p: CandidatePosition, id: string): History
    requires a in h && |h[a]| > 0
  {
    h[a := MoveLast(h[a], p, id)]
  }

  lemma OnlyOwner(last: Cursor, id: string, p: Position)
    requires OnlySequence(last, p.commitSequence) && Owns(last, id, p)
    ensures forall x, q :: Owns(last, x, q) ==> x == id && q == p
    ensures forall x, q :: OwnsCandidate(last, x, q) ==> x == id
  {
  }

  lemma MovedKeepsOthers(h: History, a: Address, id: string, was: Position, p: CandidatePosition)
    requires IsWholeLast(h, a, id, was)
    ensures forall b, x, q :: Finalized(h, b, x, q) && !(b == a && x == id && q == was) ==>
            Finalized(Moved(h, a, p, id), b, x, q)
    ensures forall b, x, q :: FinalizedCandidate(h, b, x, q) && x != id ==>
            FinalizedCandidate(Moved(h, a, p, id), b, x, q)
  {
    var n := |h[a]| - 1;
    OnlyOwner(h[a][n], id, was);
    hide Owns, OwnsCandidate, OnlySequence;
    var h' := Moved(h, a, p, id);
    forall b, x, q | Finalized(h, b, x, q) && !(b == a && x == id && q == was) ensures Finalized(h', b, x, q) {
      var i :| 0 <= i < |h[b]| && Owns(h[b][i], x, q);
      assert h'[b][i] == h[b][i];
    }
    forall b, x, q | FinalizedCandidate(h, b, x, q) && x != id ensures FinalizedCandidate(h', b, x, q) {
      var i :| 0 <= i < |h[b]| && OwnsCandidate(h[b][i], x, q);
      assert h'[b][i] == h[b][i];
    }
  }

  lemma MovedFinalizes(h: History, a: Address, id: string, was: Position, p: CandidatePosition)
    requires IsWholeLast(h, a, id, was) && p.commitSequence == was.commitSequence && p.commitSize == was.commitSize
    ensures Finalized(Moved(h, a, p, id), a, id, was.(aggregateVersion := p.aggregateVersion))
  {
    var after := Moved(h, a, p, id)[a];
    assert Owns(after[|after| - 1], id, was.(aggregateVersion := p.aggregateVersion));
  }

  lemma MovedHeads(heads: Cursors, h: History, a: Address, p: CandidatePosition, id: string)
    requires HeadsAreLast(heads, h) && a in heads && heads[a].aggregateVersion < p.aggregateVersion
    ensures a in h && |h[a]| > 0
    ensures HeadsAreLast(heads[a := FreshCursor(heads[a].previous, p, id)], Moved(h, a, p, id))
  {
    MoveLastLinks(h[a], p, id);
    HeadsExtend(heads, h, a, MoveLast(h[a], p, id));
  }

  /** The pending event of a whole head commit stands in the last link. */
  lemma WholeHeadIsLast(s: State, h: History, a: Address, id: string, was: Position)
    requires HeadsAreLast(s.cursors, h) && Finalized(h, a, id, was)
    requires s.cursors[a].aggregateVersion == was.aggregateVersion && OnlySequence(s.cursors[a], was.commitSequence)
    ensures IsWholeLast(h, a, id, was) && s.cursors[a].previous == was.previous
  {
    var chain := h[a];
    var i :| 0 <= i < |chain| && Owns(chain[i], id, was);
    SameVersionSameLink(chain, i, |chain| - 1);
  }

  /** Records whose positions are kept stay finalised. */
  lemma OthersStayFinalized(s: State, h: History, c: Candidate, h': History, m: OrderedMap<string, Record>)
    requires KeepsOthers(h, h', s, c) && RecordsFinalized(m, h) && c.event.eventId !in m.entries
    ensures RecordsFinalized(m, h')
  {
    hide Finalized;
    forall x | x in m.entries ensures Finalized(h', m.entries[x].source, x, m.entries[x].position) {
      assert Finalized(h, m.entries[x].source, x, m.entries[x].position);
    }
  }

  /** One record replaced, everything else finalised as before. */
  lemma ReplacedKeepsChain(s: State, h: History, id: string, r: Record, cursors: Cursors)
    requires HeadsAreLast(cursors, h) && ReceiptsFinalized(s.dispatched, h) && RecordsFinalized(s.dead, h)
    requires RecordsFinalized(OrderedMap(s.pending.order, s.pending.entries - {id}), h)
    requires r.dispatchId == id && r.event.eventId == id && Finalized(h, r.source, id, r.position)
    ensures ChainInv(s.(cursors := cursors, pending := s.pending.Set(id, r)), h)
  {
    hide Finalized, HeadsAreLast, ReceiptsFinalized;
    var rest := s.pending.entries - {id};
    var after := s.pending.Set(id, r).entries;
    assert forall x :: x in after && x != id ==> x in rest && after[x] == rest[x];
  }

  lemma HeadRefreshMoves(s: State, h: History, c: Candidate)
    requires IsVersionRefresh(s, c) && IsWholeHead(s, c)
    ensures NextCursors(s, c)
            == var previous := s.pending.entries[c.event.eventId].position.previous;
               s.cursors[c.source := FreshCursor(previous, c.position, c.event.eventId)]
  {
  }

  lemma HeadRefreshHistory(s: State, h: History, c: Candidate, was: Position)
    requires ChainInv(s, h) && IsVersionRefresh(s, c) && IsWholeHead(s, c)
    requires was == s.pending.entries[c.event.eventId].position && c.source == s.pending.entries[c.event.eventId].source
    requires was.aggregateVersion < c.position.aggregateVersion
    requires was.commitSequence == c.position.commitSequence && was.commitSize == c.position.commitSize
    ensures c.source in h && |h[c.source]| > 0
    ensures var h' := Moved(h, c.source, c.position, c.event.eventId);
            && HeadsAreLast(NextCursors(s, c), h')
            && KeepsOthers(h, h', s, c)
            && ReceiptsFinalized(s.dispatched, h')
            && Finalized(h', c.source, c.event.eventId, was.(aggregateVersion := c.position.aggregateVersion))
  {
    var id := c.event.eventId;
    HeadRefreshMoves(s, h, c);
    hide NextCursors, HeadsAreLast, Finalized, FinalizedCandidate, OnlySequence;
    WholeHeadIsLast(s, h, c.source, id, was);
    hide IsWholeHead, IsWholeLast;
    MovedKeepsOthers(h, c.source, id, was, c.position);
    MovedFinalizes(h, c.source, id, was, c.position);
    MovedHeads(s.cursors, h, c.source, c.position, id);
  }

  lemma HeadRefreshKeepsChain(l: Limits, s: State, h: History, c: Candidate)
    requires ChainInv(s, h) && AddOne(l, s, c).Ok? && IsVersionRefresh(s, c) && IsWholeHead(s, c)
    ensures c.source in h && |h[c.source]| > 0
    ensures var h' := Moved(h, c.source, c.position, c.event.eventId);
            ChainInv(AddOne(l, s, c).value, h') && KeepsOthers(h, h', s, c)
  {
    var id := c.event.eventId;
    hide AddOne, NextCursors, NextRecord, HeadsAreLast, ReceiptsFinalized, Finalized, FinalizedCandidate, IsWholeHead;
    hide KeepsOthers, Moved;
    AddOneOnRefresh(l, s, c);
    HeadRefreshHistory(s, h, c, s.pending.entries[id].position);
    var h' := Moved(h, c.source, c.position, id);
    assert s.pending.entries[id].dispatchId == id;
    OthersStayFinalized(s, h, c, h', s.dead);
    OthersStayFinalized(s, h, c, h', OrderedMap(s.pending.order, s.pending.entries - {id}));
    hide RecordsFinalized, ChainInv;
    ReplacedKeepsChain(s, h', id, NextRecord(s, c), NextCursors(s, c));
  }

  /** Any other refresh names a predecessor that a kept commit already names, or skips one. */
  lemma OtherRefreshBreaksChain(l: Limits, s: State, h: History, c: Candidate, h': History)
    requires ChainInv(s, h) && AddOne(l, s, c).Ok? && IsVersionRefresh(s, c) && !IsWholeHead(s, c)
    requires KeepsOthers(h, h', s, c)
    ensures !ChainInv(AddOne(l, s, c).value, h')
  {
    var id := c.event.eventId;
    var was, now := s.pending.entries[id], NextRecord(s, c);
    AddOneOnRefresh(l, s, c);
    var s' := AddOne(l, s, c).value;
    assert Finalized(h, was.source, id, was.position);
    if ChainInv(s', h') {
      assert s'.pending.Get(id) == Some(now);
      assert Finalized(h', now.source, id, now.position);
      var x, p := KeptNeighbour(s, h, c);
      assert Finalized(h', c.source, x, p);
      hide AddOne, NextRecord, Finalized, ChainInv, KeepsOthers, IsWholeHead;
      if p.aggregateVersion == was.position.aggregateVersion {
        PredecessorIsUsedOnce(s'.cursors, h', c.source, x, p, now.position);
      } else {
        PredecessorIsUsedBelow(s'.cursors, h', c.source, x, p, id, now.position, was.position.aggregateVersion);
      }
    }
  }

  /** A finalised event that is kept: of the same commit, or of the one right after it. */
  lemma KeptNeighbour(s: State, h: History, c: Candidate) returns (x: string, p: Position)
    requires ChainInv(s, h) && IsVersionRefresh(s, c) && !IsWholeHead(s, c)
    requires c.source == s.pending.entries[c.event.eventId].source
    ensures Finalized(h, c.source, x, p) && !IsFormerPosition(s, c, c.source, x, p)
    ensures var was := s.pending.entries[c.event.eventId].position;
            && (was.previous.Some? ==> was.previous.value < was.aggregateVersion)
            && if p.aggregateVersion == was.aggregateVersion then p.previous == was.previous
               else p.previous == Some(was.aggregateVersion)
  {
    var id := c.event.eventId;
    var was := s.pending.entries[id].position;
    var chain := h[c.source];
    assert Finalized(h, c.source, id, was);
    var i :| 0 <= i < |chain| && Owns(chain[i], id, was);
    assert 0 < i ==> chain[i].previous == Some(chain[i - 1].aggregateVersion);
    var j := if i < |chain| - 1 then i + 1 else i;
    assert chain[j].owners.Keys != {};
    assert HasOwner(chain[j]);
    assert j == i ==> !OnlySequence(chain[j], was.commitSequence);
    var k :| k in chain[j].owners && (j == i ==> k != was.commitSequence);
    x, p := chain[j].owners[k], Position(chain[j].aggregateVersion, k, chain[j].commitSize, chain[j].previous);
    assert Owns(chain[j], x, p);
  }

  /** Two commits of one chain never name the same predecessor. */
  lemma PredecessorIsUsedOnce(heads: Cursors, h: History, source: Address, id: string, p: Position, q: Position)
    requires HeadsAreLast(heads, h) && Finalized(h, source, id, p)
    requires p.previous == q.previous && p.aggregateVersion != q.aggregateVersion
    ensures forall x :: !Finalized(h, source, x, q)
  {
    var i :| 0 <= i < |h[source]| && Owns(h[source][i], id, p);
    if x, j :| 0 <= j < |h[source]| && Owns(h[source][j], x, q) {
      SamePreviousSameLink(h[source], i, j);
    }
  }

  /** A commit later than version w cannot name a predecessor below w when another one names w. */
  lemma PredecessorIsUsedBelow(heads: Cursors, h: History, source: Address, x: string, p: Position, id: string,
                               q: Position, w: int)
    requires HeadsAreLast(heads, h) && Finalized(h, source, x, p) && Finalized(h, source, id, q)
    requires p.previous == Some(w) && w < q.aggregateVersion
    ensures q.previous.Some? && w <= q.previous.value
  {
    var chain := h[source];
    var i :| 0 <= i < |chain| && Owns(chain[i], x, p);
    var j :| 0 <= j < |chain| && Owns(chain[j], id, q);
    assert i > 0 && chain[i - 1].aggregateVersion == w;
    if j < i - 1 { LinkedIncreases(chain, j, i - 1); }
    if i - 1 < j - 1 { LinkedIncreases(chain, i - 1, j - 1); }
  }

  /** In particular the history merely grows if and only if nothing is moved at all. */
  lemma HistoryGrowsIffNoRefresh(l: Limits, s: State, h: History, c: Candidate)
    requires ChainInv(s, h) && AddOne(l, s, c).Ok?
    ensures (exists h' :: Grows(h, h') && ChainInv(AddOne(l, s, c).value, h')) <==> !IsVersionRefresh(s, c)
  {
    if !IsVersionRefresh(s, c) {
      AddOneKeepsChain(l, s, h, c);
    } else {
      if h' :| Grows(h, h') && ChainInv(AddOne(l, s, c).value, h') {
        RefreshHasNoHistory(l, s, h, c, h');
      }
    }
  }

  /** A refresh names the old predecessor again, so two links would share one predecessor. */
  lemma RefreshHasNoHistory(l: Limits, s: State, h: History, c: Candidate, h': History)
    requires ChainInv(s, h) && AddOne(l, s, c).Ok? && IsVersionRefresh(s, c)
    ensures !(Grows(h, h') && ChainInv(AddOne(l, s, c).value, h'))
  {
    var id := c.event.eventId;
    var was, now := s.pending.entries[id], NextRecord(s, c);
    AddOneOnRefresh(l, s, c);
    assert Finalized(h, was.source, id, was.position);
    var s' := AddOne(l, s, c).value;
    if Grows(h, h') && ChainInv(s', h') {
      GrowsKeepsFinalized(h, h', was.source, id, was.position);
      assert s'.pending.Get(id) == Some(now);
      hide AddOne, NextRecord, Grows, HeadsAreLast, Finalized, FinalizedCandidate;
      assert Finalized(h', now.source, id, now.position);
      PredecessorIsUsedOnce(s'.cursors, h', was.source, id, was.position, now.position);
    }
  }
}
