/** The refresh the outbox is built for: a commit whose transaction rolled back after its events
    were added is harvested again at a later version, and `add` moves the whole commit. */
module OutboxRetries {
  import opened Common
  import opened OrderedMaps
  import opened Outboxes
  import opened OutboxChain
  import opened OutboxProperties

  /** The batch re-adds, at a later version, the whole commit that is still its source's head and
      still wholly pending. */
  ghost predicate IsRetry(s: State, a: Address, version: int, cs: seq<Candidate>) {
    && |cs| > 0 && a in s.cursors
    && s.cursors[a].aggregateVersion < version && s.cursors[a].commitSize == |cs|
    && (forall k :: k in s.cursors[a].owners <==> 0 <= k < |cs|)
    && forall k :: 0 <= k < |cs| ==> Retries(s, a, version, cs, k)
  }

  ghost predicate Retries(s: State, a: Address, version: int, cs: seq<Candidate>, k: nat)
    requires a in s.cursors && k < |cs|
  {
    var id := cs[k].event.eventId;
    && cs[k].source == a && cs[k].position == CandidatePosition(version, k, |cs|)
    && !s.dispatched.Has(id) && !s.dead.Has(id) && s.pending.Has(id)
    && s.pending.entries[id].source == a
    && s.pending.entries[id].position == Position(s.cursors[a].aggregateVersion, k, |cs|, s.cursors[a].previous)
    && k in s.cursors[a].owners && s.cursors[a].owners[k] == id
  }

  function Owners(cs: seq<Candidate>, n: nat): map<int, string>
    requires n <= |cs|
  {
    map k: int | 0 <= k < n :: cs[k].event.eventId
  }

  function RetriedHead(s: State, a: Address, version: int, cs: seq<Candidate>, n: nat): Cursor
    requires a in s.cursors && n <= |cs|
  {
    Cursor(version, s.cursors[a].previous, |cs|, Owners(cs, n))
  }

  /** The record once its candidate was added again. */
  function Retried(r: Record, c: Candidate): Record {
    r.(event := c.event, position := r.position.(aggregateVersion := c.position.aggregateVersion))
  }

  ghost predicate InFirst(cs: seq<Candidate>, n: nat, id: string)
    requires n <= |cs|
  {
    exists k :: 0 <= k < n && cs[k].event.eventId == id
  }

  /** The state once the first n candidates were added again. */
  ghost predicate Halfway(s: State, a: Address, version: int, cs: seq<Candidate>, n: nat, now: State)
    requires a in s.cursors && n <= |cs|
  {
    && now.cursors == (if n == 0 then s.cursors else s.cursors[a := RetriedHead(s, a, version, cs, n)])
    && now.dead == s.dead && now.dispatched == s.dispatched && now.pending.order == s.pending.order
    && now.pending.entries.Keys == s.pending.entries.Keys
    && (forall id :: id in s.pending.entries && !InFirst(cs, n, id) ==>
        now.pending.entries[id] == s.pending.entries[id])
    && (forall k :: 0 <= k < n && s.pending.Has(cs[k].event.eventId) ==>
          now.pending.entries[cs[k].event.eventId] == Retried(s.pending.entries[cs[k].event.eventId], cs[k]))
  }

  lemma DistinctIds(s: State, a: Address, version: int, cs: seq<Candidate>, k: nat)
    requires IsRetry(s, a, version, cs) && k < |cs|
    ensures !InFirst(cs, k, cs[k].event.eventId)
  {
    assert Retries(s, a, version, cs, k);
    forall j | 0 <= j < k ensures cs[j].event.eventId != cs[k].event.eventId {
      assert Retries(s, a, version, cs, j);
    }
  }

  lemma OwnersGrow(cs: seq<Candidate>, n: nat)
    requires n < |cs|
    ensures Owners(cs, n)[n := cs[n].event.eventId] == Owners(cs, n + 1)
    ensures Owners(cs, 0) == map[]
  {
  }

  lemma RetryCursors(s: State, a: Address, version: int, cs: seq<Candidate>, n: nat, now: State)
    requires IsRetry(s, a, version, cs) && n < |cs| && Halfway(s, a, version, cs, n, now)
    requires now.pending.Has(cs[n].event.eventId)
             && now.pending.entries[cs[n].event.eventId] == s.pending.entries[cs[n].event.eventId]
    ensures NextCursors(now, cs[n]) == s.cursors[a := RetriedHead(s, a, version, cs, n + 1)]
    ensures HeadConflict(now.cursors, cs[n]).None?
  {
    assert Retries(s, a, version, cs, n);
    OwnersGrow(cs, n);
    assert now.cursors[a].aggregateVersion == (if n == 0 then s.cursors[a].aggregateVersion else version);
  }

  /** A pending event moved to a later version under a head that admits it is accepted. */
  lemma RetryAccepted(l: Limits, now: State, c: Candidate)
    requires IsVersionRefresh(now, c) && HeadConflict(now.cursors, c).None?
    requires var r := now.pending.entries[c.event.eventId];
             && r.source == c.source && r.position.aggregateVersion < c.position.aggregateVersion
             && r.position.commitSequence == c.position.commitSequence && r.position.commitSize == c.position.commitSize
    ensures AddOne(l, now, c) == Ok(StoreFresh(now, c))
  {
  }

  lemma RetryStep(l: Limits, s: State, a: Address, version: int, cs: seq<Candidate>, n: nat, now: State)
    requires IsRetry(s, a, version, cs) && n < |cs| && Halfway(s, a, version, cs, n, now)
    ensures AddOne(l, now, cs[n]).Ok? && Halfway(s, a, version, cs, n + 1, AddOne(l, now, cs[n]).value)
  {
    var c := cs[n];
    var id := c.event.eventId;
    DistinctIds(s, a, version, cs, n);
    assert Retries(s, a, version, cs, n);
    RetryCursors(s, a, version, cs, n, now);
    hide NextCursors, RetriedHead, IsRetry;
    RetryAccepted(l, now, c);
    assert NextRecord(now, c) == Retried(s.pending.entries[id], c);
    hide AddOne, NextRecord, Retried, HeadConflict;
    forall x | x in s.pending.entries && !InFirst(cs, n + 1, x)
      ensures StoreFresh(now, c).pending.entries[x] == s.pending.entries[x] {
      assert x != id && !InFirst(cs, n, x);
    }
  }

  lemma {:induction false} RetryLoop(l: Limits, s: State, a: Address, version: int, cs: seq<Candidate>, n: nat)
    requires IsRetry(s, a, version, cs) && n <= |cs|
    ensures AddLoop(l, s, cs[..n]).error.None? && Halfway(s, a, version, cs, n, AddLoop(l, s, cs[..n]).state)
  {
    if n > 0 {
      assert cs[..n][..n - 1] == cs[..n - 1];
      RetryLoop(l, s, a, version, cs, n - 1);
      hide IsRetry, Halfway, AddOne;
      RetryStep(l, s, a, version, cs, n - 1, AddLoop(l, s, cs[..n - 1]).state);
    }
  }

  // ---- the pre-checks let it through ----

  lemma {:induction false} FirstReceiptsOf(cs: seq<Candidate>)
    ensures forall id :: id in FirstReceipts(cs) <==> InFirst(cs, |cs|, id)
  {
    if |cs| > 0 {
      var init := cs[..|cs| - 1];
      FirstReceiptsOf(init);
      forall id ensures InFirst(cs, |cs|, id) <==> InFirst(init, |init|, id) || cs[|cs| - 1].event.eventId == id {
        if k :| 0 <= k < |init| && init[k].event.eventId == id {
          assert cs[k].event.eventId == id;
        }
        if k :| 0 <= k < |cs| && cs[k].event.eventId == id && k < |init| {
          assert init[k].event.eventId == id;
        }
      }
    }
  }

  lemma {:induction false} RetryReceipts(s: State, a: Address, version: int, cs: seq<Candidate>, n: nat)
    requires IsRetry(s, a, version, cs) && n <= |cs|
    ensures ReceiptPrecheck(s, cs[..n]).None?
  {
    if n > 0 {
      var init := cs[..n - 1];
      assert cs[..n][..n - 1] == init;
      RetryReceipts(s, a, version, cs, n - 1);
      assert Retries(s, a, version, cs, n - 1);
      DistinctIds(s, a, version, cs, n - 1);
      FirstReceiptsOf(init);
      assert forall k :: 0 <= k < n - 1 ==> init[k] == cs[k];
      assert !InFirst(init, |init|, cs[n - 1].event.eventId);
    }
  }

  lemma {:induction false} RetrySimulated(s: State, a: Address, version: int, cs: seq<Candidate>, n: nat)
    requires IsRetry(s, a, version, cs) && n <= |cs|
    ensures Simulate(s.cursors, cs[..n]) == Ok(if n == 0 then s.cursors else
              s.cursors[a := Cursor(version, Some(s.cursors[a].aggregateVersion), |cs|, Owners(cs, n))])
  {
    if n > 0 {
      assert cs[..n][..n - 1] == cs[..n - 1];
      RetrySimulated(s, a, version, cs, n - 1);
      assert Retries(s, a, version, cs, n - 1);
      OwnersGrow(cs, n - 1);
      var before := Simulate(s.cursors, cs[..n - 1]).value;
      assert n > 1 ==> n - 1 !in before[a].owners;
      var head := Cursor(version, Some(s.cursors[a].aggregateVersion), |cs|, Owners(cs, n));
      assert SimulateOne(before, cs[n - 1]) == Ok(before[a := head]);
      assert before[a := head] == s.cursors[a := head];
      assert Simulate(s.cursors, cs[..n]) == SimulateOne(before, cs[n - 1]);
    }
  }

  lemma RetryNeedsNoRoom(s: State, a: Address, version: int, cs: seq<Candidate>)
    requires IsRetry(s, a, version, cs)
    ensures NewRecordIds(s, cs) == {} && NewSources(s, cs) == {}
  {
    forall c | c in cs ensures IsKnown(s, c.event.eventId) {
      var k :| 0 <= k < |cs| && cs[k] == c;
      assert Retries(s, a, version, cs, k);
    }
  }

  lemma RetryPrecheck(l: Limits, s: State, a: Address, version: int, cs: seq<Candidate>)
    requires WithinLimits(l, s) && IsRetry(s, a, version, cs)
    ensures Precheck(l, s, cs).None?
  {
    assert cs[..|cs|] == cs;
    RetryReceipts(s, a, version, cs, |cs|);
    RetrySimulated(s, a, version, cs, |cs|);
    RetryNeedsNoRoom(s, a, version, cs);
    hide IsRetry, ReceiptPrecheck, Simulate, NewRecordIds, NewSources;
  }

  // ---- the chain afterwards ----

  /** The history with the head commit at its new version. */
  ghost function RetriedHistory(h: History, a: Address, version: int): History
    requires a in h && |h[a]| > 0
  {
    h[a := h[a][|h[a]| - 1 := h[a][|h[a]| - 1].(aggregateVersion := version)]]
  }

  /** Everything finalised outside the head commit is kept. */
  ghost predicate KeepsEarlier(h: History, h': History, a: Address, version: int) {
    forall b, x, p :: Finalized(h, b, x, p) && !(b == a && p.aggregateVersion == version) ==> Finalized(h', b, x, p)
  }

  lemma RetriedKeepsEarlier(h: History, a: Address, version: int)
    requires a in h && |h[a]| > 0
    ensures KeepsEarlier(h, RetriedHistory(h, a, version), a, h[a][|h[a]| - 1].aggregateVersion)
    ensures forall b, x, p ::
              FinalizedCandidate(h, b, x, p) && !(b == a && p.aggregateVersion == h[a][|h[a]| - 1].aggregateVersion)
              ==> FinalizedCandidate(RetriedHistory(h, a, version), b, x, p)
  {
    var h' := RetriedHistory(h, a, version);
    var n := |h[a]| - 1;
    forall b, x, p | Finalized(h, b, x, p) && !(b == a && p.aggregateVersion == h[a][n].aggregateVersion)
      ensures Finalized(h', b, x, p) {
      var i :| 0 <= i < |h[b]| && Owns(h[b][i], x, p);
      assert h'[b][i] == h[b][i];
    }
    forall b, x, p | FinalizedCandidate(h, b, x, p) && !(b == a && p.aggregateVersion == h[a][n].aggregateVersion)
      ensures FinalizedCandidate(h', b, x, p) {
      var i :| 0 <= i < |h[b]| && OwnsCandidate(h[b][i], x, p);
      assert h'[b][i] == h[b][i];
    }
  }

  lemma RetriedHeads(heads: Cursors, h: History, a: Address, version: int, head: Cursor)
    requires HeadsAreLast(heads, h) && a in heads && heads[a].aggregateVersion < version
    requires head == heads[a].(aggregateVersion := version)
    ensures a in h && |h[a]| > 0 && HeadsAreLast(heads[a := head], RetriedHistory(h, a, version))
  {
    var chain := h[a];
    var after := chain[|chain| - 1 := head];
    assert Linked(after) by {
      forall i | 0 <= i < |after| ensures HasOwner(after[i]) {
        assert HasOwner(chain[i]);
        if i == |chain| - 1 {
          var k :| k in chain[i].owners;
          assert k in after[i].owners;
        }
      }
    }
    hide Linked, HasOwner;
  }

  /** What is stored at the head's version belongs to the batch. */
  lemma HeadIsBatch(s: State, h: History, a: Address, version: int, cs: seq<Candidate>, x: string, p: CandidatePosition)
    requires HeadsAreLast(s.cursors, h) && IsRetry(s, a, version, cs)
    requires FinalizedCandidate(h, a, x, p) && p.aggregateVersion == s.cursors[a].aggregateVersion
    ensures 0 <= p.commitSequence < |cs| && cs[p.commitSequence].event.eventId == x
  {
    HeadIsNewest(s, h, a, x, p);
    assert Retries(s, a, version, cs, p.commitSequence);
  }

  lemma HeadRecordIsBatch(s: State, h: History, a: Address, version: int, cs: seq<Candidate>,
                          m: OrderedMap<string, Record>, x: string)
    requires HeadsAreLast(s.cursors, h) && IsRetry(s, a, version, cs) && RecordsFinalized(m, h) && x in m.entries
    ensures m.entries[x].source == a && m.entries[x].position.aggregateVersion == s.cursors[a].aggregateVersion ==>
              InFirst(cs, |cs|, x)
  {
    var r := m.entries[x];
    if r.source == a && r.position.aggregateVersion == s.cursors[a].aggregateVersion {
      FinalizedForgetsLink(h, a, x, r.position);
      HeadIsBatch(s, h, a, version, cs, x, Unlinked(r.position));
    }
  }

  lemma BatchIsPending(s: State, a: Address, version: int, cs: seq<Candidate>, x: string)
    requires IsRetry(s, a, version, cs)
    ensures InFirst(cs, |cs|, x) ==> s.pending.Has(x) && !s.dead.Has(x) && !s.dispatched.Has(x)
  {
    if k :| 0 <= k < |cs| && cs[k].event.eventId == x {
      assert Retries(s, a, version, cs, k);
    }
  }

  lemma OwnersAreHead(s: State, a: Address, version: int, cs: seq<Candidate>)
    requires IsRetry(s, a, version, cs)
    ensures RetriedHead(s, a, version, cs, |cs|) == s.cursors[a].(aggregateVersion := version)
  {
    forall k | 0 <= k < |cs| ensures s.cursors[a].owners[k] == cs[k].event.eventId {
      assert Retries(s, a, version, cs, k);
    }
    assert Owners(cs, |cs|) == s.cursors[a].owners;
  }

  lemma RetriedIsFinalized(s: State, h: History, a: Address, version: int, cs: seq<Candidate>, k: nat)
    requires HeadsAreLast(s.cursors, h) && IsRetry(s, a, version, cs) && k < |cs|
    ensures a in h && |h[a]| > 0 && s.pending.Has(cs[k].event.eventId)
    ensures var r := Retried(s.pending.entries[cs[k].event.eventId], cs[k]);
            r.source == a && Finalized(RetriedHistory(h, a, version), a, cs[k].event.eventId, r.position)
  {
    assert Retries(s, a, version, cs, k);
    var id := cs[k].event.eventId;
    var after := RetriedHistory(h, a, version)[a];
    assert Owns(after[|after| - 1], id, Retried(s.pending.entries[id], cs[k]).position);
  }

  lemma RetriedRecords(s: State, h: History, a: Address, version: int, cs: seq<Candidate>, now: State)
    requires ChainInv(s, h) && IsRetry(s, a, version, cs) && Halfway(s, a, version, cs, |cs|, now)
    ensures a in h && |h[a]| > 0 && RecordsFinalized(now.pending, RetriedHistory(h, a, version))
  {
    var h' := RetriedHistory(h, a, version);
    RetriedKeepsEarlier(h, a, version);
    forall x | x in now.pending.entries
      ensures var r := now.pending.entries[x];
              r.dispatchId == x && r.event.eventId == x && Finalized(h', r.source, x, r.position) {
      assert s.pending.entries[x].dispatchId == x;
      if InFirst(cs, |cs|, x) {
        var k :| 0 <= k < |cs| && cs[k].event.eventId == x;
        RetriedIsFinalized(s, h, a, version, cs, k);
      } else {
        assert Finalized(h, s.pending.entries[x].source, x, s.pending.entries[x].position);
        HeadRecordIsBatch(s, h, a, version, cs, s.pending, x);
      }
    }
  }

  lemma RetriedDead(s: State, h: History, a: Address, version: int, cs: seq<Candidate>)
    requires ChainInv(s, h) && IsRetry(s, a, version, cs)
    ensures a in h && |h[a]| > 0
    ensures RecordsFinalized(s.dead, RetriedHistory(h, a, version))
    ensures ReceiptsFinalized(s.dispatched, RetriedHistory(h, a, version))
  {
    var h' := RetriedHistory(h, a, version);
    RetriedKeepsEarlier(h, a, version);
    forall x | x in s.dead.entries ensures Finalized(h', s.dead.entries[x].source, x, s.dead.entries[x].position) {
      assert Finalized(h, s.dead.entries[x].source, x, s.dead.entries[x].position);
      BatchIsPending(s, a, version, cs, x);
      HeadRecordIsBatch(s, h, a, version, cs, s.dead, x);
    }
    forall x | x in s.dispatched.entries
      ensures FinalizedCandidate(h', s.dispatched.entries[x].source, x, s.dispatched.entries[x].position) {
      var r := s.dispatched.entries[x];
      assert FinalizedCandidate(h, r.source, x, r.position);
      BatchIsPending(s, a, version, cs, x);
      if r.source == a && r.position.aggregateVersion == s.cursors[a].aggregateVersion {
        HeadIsBatch(s, h, a, version, cs, x, r.position);
      }
    }
  }

  /** Re-adding a leaked head commit at a later version is accepted, keeps every invariant, and
      changes the history in one place: the same commit, same predecessor, same events, stands at
      the new version. */
  lemma RetryMovesHeadCommit(l: Limits, s: State, h: History, a: Address, version: int, cs: seq<Candidate>)
    requires ValidLimits(l) && Inv(l, s, h) && IsRetry(s, a, version, cs)
    ensures Add(l, s, cs).error.None?
    ensures a in h && |h[a]| > 0
    ensures Inv(l, Add(l, s, cs).state, RetriedHistory(h, a, version))
    ensures KeepsEarlier(h, RetriedHistory(h, a, version), a, s.cursors[a].aggregateVersion)
    ensures Add(l, s, cs).state.pending.order == s.pending.order
  {
    var now := AddLoop(l, s, cs).state;
    RetryPrecheck(l, s, a, version, cs);
    AddKeepsCapacity(l, s, cs);
    assert cs[..|cs|] == cs;
    RetryLoop(l, s, a, version, cs, |cs|);
    OwnersAreHead(s, a, version, cs);
    RetriedHeads(s.cursors, h, a, version, s.cursors[a].(aggregateVersion := version));
    RetriedRecords(s, h, a, version, cs, now);
    RetriedDead(s, h, a, version, cs);
    RetriedKeepsEarlier(h, a, version);
    hide IsRetry, HeadsAreLast, RecordsFinalized, ReceiptsFinalized, StorageInv, WithinLimits, Precheck, AddLoop;
    hide KeepsEarlier;
  }
}
