/** What the batch pre-checks of `add` refuse, in the fields of candidates, records and receipts
    and in sets of ids and sources, without the order in which the checks walk the batch. */
module OutboxVerdicts {
  import opened Common
  import opened Outboxes
  import opened OutboxChain
  import opened OutboxProperties
  import opened OutboxAtomicity

  // ---- receipts ----

  /** The candidate is what the outbox already holds under its event id: the same source and commit
      place, and the same version too unless the event is still pending. */
  ghost predicate AgreesWithStored(s: State, c: Candidate) {
    var id, p := c.event.eventId, c.position;
    && (id in s.dispatched.entries ==>
          c.source == s.dispatched.entries[id].source && p == s.dispatched.entries[id].position)
    && (id in s.pending.entries && id !in s.dispatched.entries ==>
          && c.source == s.pending.entries[id].source
          && p.commitSequence == s.pending.entries[id].position.commitSequence
          && p.commitSize == s.pending.entries[id].position.commitSize)
    && (id in s.dead.entries && id !in s.dispatched.entries ==>
          && c.source == s.dead.entries[id].source
          && p.aggregateVersion == s.dead.entries[id].position.aggregateVersion
          && p.commitSequence == s.dead.entries[id].position.commitSequence
          && p.commitSize == s.dead.entries[id].position.commitSize)
  }

  /** Every candidate agrees with what is stored and with every other candidate of its event id. */
  ghost predicate ReceiptsAgree(s: State, cs: seq<Candidate>) {
    && (forall n :: 0 <= n < |cs| ==> AgreesWithStored(s, cs[n]))
    && forall m, n :: 0 <= m < n < |cs| && cs[m].event.eventId == cs[n].event.eventId ==>
         cs[m].source == cs[n].source && cs[m].position == cs[n].position
  }

  lemma StoredVerdict(s: State, c: Candidate)
    ensures StoredMismatch(s, c).None? <==> AgreesWithStored(s, c)
  {
  }

  /** Each id of the batch is remembered with the candidate that first named it. */
  lemma {:induction false} FirstReceiptIs(cs: seq<Candidate>)
    ensures forall id :: id in FirstReceipts(cs) <==> exists n :: 0 <= n < |cs| && cs[n].event.eventId == id
    ensures forall id :: id in FirstReceipts(cs) ==>
              exists n :: 0 <= n < |cs| && cs[n].event.eventId == id
                          && FirstReceipts(cs)[id] == Receipt(cs[n].source, cs[n].position)
  {
    if |cs| > 0 {
      var init, last := cs[..|cs| - 1], |cs| - 1;
      FirstReceiptIs(init);
      forall id | id in FirstReceipts(cs)
        ensures exists n :: 0 <= n < |cs| && cs[n].event.eventId == id
                            && FirstReceipts(cs)[id] == Receipt(cs[n].source, cs[n].position) {
        if id in FirstReceipts(init) {
          var n :| 0 <= n < |init| && init[n].event.eventId == id
                   && FirstReceipts(init)[id] == Receipt(init[n].source, init[n].position);
          assert cs[n] == init[n];
        } else {
          assert cs[last].event.eventId == id;
        }
      }
      forall id ensures id in FirstReceipts(cs) <==> exists n :: 0 <= n < |cs| && cs[n].event.eventId == id {
        if n :| 0 <= n < |cs| && cs[n].event.eventId == id && n < last {
          assert init[n].event.eventId == id;
        }
      }
    }
  }

  ghost predicate SameAsEarlier(cs: seq<Candidate>, c: Candidate) {
    forall m :: 0 <= m < |cs| && cs[m].event.eventId == c.event.eventId ==>
      cs[m].source == c.source && cs[m].position == c.position
  }

  lemma SeenVerdict(s: State, cs: seq<Candidate>, c: Candidate)
    requires ReceiptsAgree(s, cs)
    ensures var seen, id := FirstReceipts(cs), c.event.eventId;
            (id in seen ==> ReceiptMismatch(c, seen[id].source, seen[id].position, false).None?)
            <==> SameAsEarlier(cs, c)
  {
    var seen, id := FirstReceipts(cs), c.event.eventId;
    FirstReceiptIs(cs);
    hide FirstReceipts, AgreesWithStored;
    if id in seen {
      var n :| 0 <= n < |cs| && cs[n].event.eventId == id && seen[id] == Receipt(cs[n].source, cs[n].position);
      assert forall m :: 0 <= m < |cs| && cs[m].event.eventId == id ==>
          cs[m].source == cs[n].source && cs[m].position == cs[n].position;
    }
  }

  lemma BatchVerdict(s: State, cs: seq<Candidate>)
    requires |cs| > 0 && ReceiptsAgree(s, cs[..|cs| - 1])
    ensures BatchMismatch(s, FirstReceipts(cs[..|cs| - 1]), cs[|cs| - 1]).None? <==> ReceiptsAgree(s, cs)
  {
    var init, c := cs[..|cs| - 1], cs[|cs| - 1];
    StoredVerdict(s, c);
    SeenVerdict(s, init, c);
    hide StoredMismatch, AgreesWithStored, FirstReceipts, ReceiptMismatch;
    assert forall n :: 0 <= n < |init| ==> init[n] == cs[n];
  }

  lemma AgreeOnPrefix(s: State, cs: seq<Candidate>)
    requires |cs| > 0 && ReceiptsAgree(s, cs)
    ensures ReceiptsAgree(s, cs[..|cs| - 1])
  {
    hide AgreesWithStored;
    assert forall n :: 0 <= n < |cs| - 1 ==> cs[..|cs| - 1][n] == cs[n];
  }

  /** The receipt pre-check passes exactly the batches that agree with storage and themselves. */
  lemma {:induction false} ReceiptsVerdict(s: State, cs: seq<Candidate>)
    ensures ReceiptPrecheck(s, cs).None? <==> ReceiptsAgree(s, cs)
  {
    if |cs| > 0 {
      ReceiptsVerdict(s, cs[..|cs| - 1]);
      hide ReceiptsAgree, BatchMismatch;
      if ReceiptsAgree(s, cs) {
        AgreeOnPrefix(s, cs);
      }
      if ReceiptsAgree(s, cs[..|cs| - 1]) {
        BatchVerdict(s, cs);
      }
    }
  }

  // ---- positions ----

  /** Neither the stored head nor an earlier candidate of its source is at a later version. */
  ghost predicate IsNewest(cursors: Cursors, cs: seq<Candidate>, n: nat)
    requires n < |cs|
  {
    && (cs[n].source in cursors ==> cursors[cs[n].source].aggregateVersion <= cs[n].position.aggregateVersion)
    && forall i :: 0 <= i < n && cs[i].source == cs[n].source ==>
         cs[i].position.aggregateVersion <= cs[n].position.aggregateVersion
  }

  /** At the version of the stored head, yet of another size, or at a place another event owns. */
  ghost predicate ContradictsHead(cursors: Cursors, c: Candidate) {
    && c.source in cursors
    && cursors[c.source].aggregateVersion == c.position.aggregateVersion
    && (cursors[c.source].commitSize != c.position.commitSize
        || (c.position.commitSequence in cursors[c.source].owners
            && cursors[c.source].owners[c.position.commitSequence] != c.event.eventId))
  }

  /** One commit told with two sizes, or one place in it with two events. */
  ghost predicate ContradictEachOther(a: Candidate, b: Candidate) {
    && a.source == b.source && a.position.aggregateVersion == b.position.aggregateVersion
    && (a.position.commitSize != b.position.commitSize
        || (a.position.commitSequence == b.position.commitSequence && a.event.eventId != b.event.eventId))
  }

  ghost predicate PositionAgrees(cursors: Cursors, cs: seq<Candidate>, n: nat)
    requires n < |cs|
  {
    IsNewest(cursors, cs, n) ==>
      && !ContradictsHead(cursors, cs[n])
      && forall i :: 0 <= i < n ==> !ContradictEachOther(cs[i], cs[n])
  }

  /** No candidate that is newest of its source contradicts the stored head or an earlier one. */
  ghost predicate PositionsAgree(cursors: Cursors, cs: seq<Candidate>) {
    forall n: nat :: n < |cs| ==> PositionAgrees(cursors, cs, n)
  }

  predicate IsAt(c: Candidate, a: Address, version: int) {
    c.source == a && c.position.aggregateVersion == version
  }

  predicate HeadIsAt(cursors: Cursors, a: Address, version: int) {
    a in cursors && cursors[a].aggregateVersion == version
  }

  /** The head is the newest commit of its source among the stored head and the batch, with its size
      and with exactly the owners told of it. */
  ghost predicate IsNewestCommit(cursors: Cursors, cs: seq<Candidate>, a: Address, head: Cursor) {
    var v := head.aggregateVersion;
    && (a in cursors ==> cursors[a].aggregateVersion <= v)
    && (forall i :: 0 <= i < |cs| && cs[i].source == a ==> cs[i].position.aggregateVersion <= v)
    && (HeadIsAt(cursors, a, v) || exists i :: 0 <= i < |cs| && IsAt(cs[i], a, v))
    && (HeadIsAt(cursors, a, v) ==> cursors[a].commitSize == head.commitSize)
    && (HeadIsAt(cursors, a, v) ==>
          forall k :: k in cursors[a].owners ==> k in head.owners && head.owners[k] == cursors[a].owners[k])
    && (forall i :: 0 <= i < |cs| && IsAt(cs[i], a, v) ==> IsTold(head, cs[i]))
    && (forall k :: k in head.owners ==>
          || (HeadIsAt(cursors, a, v) && k in cursors[a].owners)
          || exists i :: 0 <= i < |cs| && IsAt(cs[i], a, v) && cs[i].position.commitSequence == k)
  }

  predicate IsTold(head: Cursor, c: Candidate) {
    && c.position.commitSize == head.commitSize
    && c.position.commitSequence in head.owners && head.owners[c.position.commitSequence] == c.event.eventId
  }

  ghost predicate Mentions(cs: seq<Candidate>, a: Address) {
    exists i :: 0 <= i < |cs| && cs[i].source == a
  }

  /** The simulated heads stand for the stored ones and the batch so far. */
  ghost predicate Stands(cursors: Cursors, cs: seq<Candidate>, sim: Cursors) {
    && (forall a :: a in sim <==> a in cursors || Mentions(cs, a))
    && (forall a :: a in sim ==> IsNewestCommit(cursors, cs, a, sim[a]))
  }

  lemma MentionsNext(cs: seq<Candidate>, a: Address)
    requires |cs| > 0
    ensures Mentions(cs, a) <==> Mentions(cs[..|cs| - 1], a) || cs[|cs| - 1].source == a
  {
    var init := cs[..|cs| - 1];
    if i :| 0 <= i < |cs| && cs[i].source == a && i < |init| {
      assert init[i].source == a;
    }
    if i :| 0 <= i < |init| && init[i].source == a {
      assert cs[i].source == a;
    }
  }

  /** A head the last candidate leaves alone still stands. */
  lemma HeadStays(cursors: Cursors, cs: seq<Candidate>, a: Address, head: Cursor)
    requires |cs| > 0 && IsNewestCommit(cursors, cs[..|cs| - 1], a, head)
    requires var c := cs[|cs| - 1];
             c.source == a ==> c.position.aggregateVersion < head.aggregateVersion
                               || (c.position.aggregateVersion == head.aggregateVersion && IsTold(head, c))
    ensures IsNewestCommit(cursors, cs, a, head)
  {
    var init, v := cs[..|cs| - 1], head.aggregateVersion;
    assert forall i :: 0 <= i < |init| ==> init[i] == cs[i];
    hide IsTold;
    forall k | k in head.owners && !(HeadIsAt(cursors, a, v) && k in cursors[a].owners)
      ensures exists i :: 0 <= i < |cs| && IsAt(cs[i], a, v) && cs[i].position.commitSequence == k {
      var i :| 0 <= i < |init| && IsAt(init[i], a, v) && init[i].position.commitSequence == k;
      assert IsAt(cs[i], a, v);
    }
    if !HeadIsAt(cursors, a, v) {
      var i :| 0 <= i < |init| && IsAt(init[i], a, v);
      assert IsAt(cs[i], a, v);
    }
  }

  /** A candidate past everything before it becomes the head. */
  lemma HeadMoves(cursors: Cursors, cs: seq<Candidate>, head: Cursor)
    requires |cs| > 0
    requires var c, init := cs[|cs| - 1], cs[..|cs| - 1];
             && head.aggregateVersion == c.position.aggregateVersion && head.commitSize == c.position.commitSize
             && head.owners == map[c.position.commitSequence := c.event.eventId]
             && (c.source in cursors ==> cursors[c.source].aggregateVersion < c.position.aggregateVersion)
             && forall i :: 0 <= i < |init| && init[i].source == c.source ==>
                  init[i].position.aggregateVersion < c.position.aggregateVersion
    ensures IsNewestCommit(cursors, cs, cs[|cs| - 1].source, head)
  {
    var c, init := cs[|cs| - 1], cs[..|cs| - 1];
    assert forall i :: 0 <= i < |init| ==> init[i] == cs[i];
    assert IsAt(cs[|cs| - 1], c.source, head.aggregateVersion);
  }

  /** A further event of the head commit joins its owners. */
  lemma HeadGrows(cursors: Cursors, cs: seq<Candidate>, head: Cursor)
    requires |cs| > 0
    requires var c := cs[|cs| - 1];
             && IsNewestCommit(cursors, cs[..|cs| - 1], c.source, head)
             && c.position.aggregateVersion == head.aggregateVersion && c.position.commitSize == head.commitSize
             && c.position.commitSequence !in head.owners
    ensures var c := cs[|cs| - 1];
            IsNewestCommit(cursors, cs, c.source, CursorWithEvent(head, c.position.commitSequence, c.event.eventId))
  {
    var c, init := cs[|cs| - 1], cs[..|cs| - 1];
    var a, v := c.source, head.aggregateVersion;
    var grown := CursorWithEvent(head, c.position.commitSequence, c.event.eventId);
    assert forall i :: 0 <= i < |init| ==> init[i] == cs[i];
    assert IsAt(cs[|cs| - 1], a, v);
    forall i | 0 <= i < |cs| && IsAt(cs[i], a, v) ensures IsTold(grown, cs[i]) {
      if i < |init| {
        assert IsTold(head, init[i]);
      }
    }
    forall k | k in grown.owners && !(HeadIsAt(cursors, a, v) && k in cursors[a].owners)
      ensures exists i :: 0 <= i < |cs| && IsAt(cs[i], a, v) && cs[i].position.commitSequence == k {
      if k in head.owners {
        var i :| 0 <= i < |init| && IsAt(init[i], a, v) && init[i].position.commitSequence == k;
        assert IsAt(cs[i], a, v);
      }
    }
  }

  /** Against a head that stands, the last candidate agrees exactly when it meets no conflict. */
  lemma LastAgreesIff(cursors: Cursors, cs: seq<Candidate>, sim: Cursors)
    requires |cs| > 0 && Stands(cursors, cs[..|cs| - 1], sim)
    ensures var c := cs[|cs| - 1];
            PositionAgrees(cursors, cs, |cs| - 1) <==>
            !(c.source in sim && sim[c.source].aggregateVersion == c.position.aggregateVersion
              && HeadConflict(sim, c).Some?)
  {
    var n, init := |cs| - 1, cs[..|cs| - 1];
    var c := cs[n];
    assert forall i :: 0 <= i < n ==> init[i] == cs[i];
    if c.source in sim {
      assert IsNewestCommit(cursors, init, c.source, sim[c.source]);
      LastAgainstHead(cursors, cs, sim[c.source]);
    } else {
      assert !Mentions(init, c.source) && c.source !in cursors;
      forall i | 0 <= i < n ensures cs[i].source != c.source {
        assert init[i].source == cs[i].source;
      }
    }
  }

  lemma LastAgainstHead(cursors: Cursors, cs: seq<Candidate>, head: Cursor)
    requires |cs| > 0 && IsNewestCommit(cursors, cs[..|cs| - 1], cs[|cs| - 1].source, head)
    ensures var c := cs[|cs| - 1];
            PositionAgrees(cursors, cs, |cs| - 1) <==>
            !(head.aggregateVersion == c.position.aggregateVersion
              && (head.commitSize != c.position.commitSize
                  || (c.position.commitSequence in head.owners
                      && head.owners[c.position.commitSequence] != c.event.eventId)))
  {
    var n, init := |cs| - 1, cs[..|cs| - 1];
    var c, v := cs[n], head.aggregateVersion;
    var a, q := c.source, c.position.commitSequence;
    assert forall i :: 0 <= i < n ==> init[i] == cs[i];
    if c.position.aggregateVersion != v {
      if !HeadIsAt(cursors, a, v) {
        var i :| 0 <= i < |init| && IsAt(init[i], a, v);
        assert cs[i].source == a;
      }
    } else {
      assert IsNewest(cursors, cs, n);
      assert forall i :: 0 <= i < n && cs[i].source == a && cs[i].position.aggregateVersion == v ==>
          IsAt(init[i], a, v) && IsTold(head, init[i]);
      if head.commitSize != c.position.commitSize && !HeadIsAt(cursors, a, v) {
        var i :| 0 <= i < |init| && IsAt(init[i], a, v);
        assert ContradictEachOther(cs[i], c);
      }
      if q in head.owners && head.owners[q] != c.event.eventId
         && !(HeadIsAt(cursors, a, v) && q in cursors[a].owners) {
        var i :| 0 <= i < |init| && IsAt(init[i], a, v) && init[i].position.commitSequence == q;
        assert ContradictEachOther(cs[i], c);
      }
    }
  }

  lemma StandsNext(cursors: Cursors, cs: seq<Candidate>, sim: Cursors)
    requires |cs| > 0 && Stands(cursors, cs[..|cs| - 1], sim) && SimulateOne(sim, cs[|cs| - 1]).Ok?
    ensures Stands(cursors, cs, SimulateOne(sim, cs[|cs| - 1]).value)
  {
    var init, c := cs[..|cs| - 1], cs[|cs| - 1];
    var next := SimulateOne(sim, c).value;
    SimulateAddsSource(sim, c);
    hide Mentions, SimulateOne, IsNewestCommit, Stands;
    forall a ensures StandsAt(cursors, cs, next, a) {
      assert StandsAt(cursors, init, sim, a) by { StandsOne(cursors, init, sim, a); }
      MentionsNext(cs, a);
      if a in next {
        NextHead(cursors, cs, sim, a);
      }
    }
    StandsAll(cursors, cs, next);
  }

  ghost predicate StandsAt(cursors: Cursors, cs: seq<Candidate>, sim: Cursors, a: Address) {
    && (a in sim <==> a in cursors || Mentions(cs, a))
    && (a in sim ==> IsNewestCommit(cursors, cs, a, sim[a]))
  }

  lemma StandsOne(cursors: Cursors, cs: seq<Candidate>, sim: Cursors, a: Address)
    requires Stands(cursors, cs, sim)
    ensures StandsAt(cursors, cs, sim, a)
  {
    hide IsNewestCommit, Mentions;
  }

  lemma StandsAll(cursors: Cursors, cs: seq<Candidate>, sim: Cursors)
    requires forall a :: StandsAt(cursors, cs, sim, a)
    ensures Stands(cursors, cs, sim)
  {
    hide IsNewestCommit, Mentions;
    assert forall a :: a in sim <==> a in cursors || Mentions(cs, a) by {
      forall a ensures a in sim <==> a in cursors || Mentions(cs, a) { assert StandsAt(cursors, cs, sim, a); }
    }
    forall a | a in sim ensures IsNewestCommit(cursors, cs, a, sim[a]) { assert StandsAt(cursors, cs, sim, a); }
  }

  lemma SimulateAddsSource(sim: Cursors, c: Candidate)
    requires SimulateOne(sim, c).Ok?
    ensures forall a :: a in SimulateOne(sim, c).value <==> a in sim || a == c.source
  {
  }

  lemma NextHead(cursors: Cursors, cs: seq<Candidate>, sim: Cursors, a: Address)
    requires |cs| > 0 && SimulateOne(sim, cs[|cs| - 1]).Ok? && a in SimulateOne(sim, cs[|cs| - 1]).value
    requires a in sim ==> IsNewestCommit(cursors, cs[..|cs| - 1], a, sim[a])
    requires a !in sim ==> a !in cursors && !Mentions(cs[..|cs| - 1], a)
    ensures IsNewestCommit(cursors, cs, a, SimulateOne(sim, cs[|cs| - 1]).value[a])
  {
    var init, c := cs[..|cs| - 1], cs[|cs| - 1];
    var next := SimulateOne(sim, c).value;
    if a != c.source {
      hide IsNewestCommit;
      HeadStays(cursors, cs, a, sim[a]);
    } else if a !in sim || c.position.aggregateVersion > sim[a].aggregateVersion {
      HeadMoves(cursors, cs, next[a]);
    } else if c.position.aggregateVersion < sim[a].aggregateVersion || c.position.commitSequence in sim[a].owners {
      hide IsNewestCommit;
      HeadStays(cursors, cs, a, sim[a]);
    } else {
      hide IsNewestCommit;
      HeadGrows(cursors, cs, sim[a]);
    }
  }

  lemma PositionsAgreeNext(cursors: Cursors, cs: seq<Candidate>)
    requires |cs| > 0
    ensures PositionsAgree(cursors, cs) <==>
            PositionsAgree(cursors, cs[..|cs| - 1]) && PositionAgrees(cursors, cs, |cs| - 1)
  {
    var init := cs[..|cs| - 1];
    assert forall i :: 0 <= i < |init| ==> init[i] == cs[i];
    forall n: nat | n < |init| ensures PositionAgrees(cursors, init, n) <==> PositionAgrees(cursors, cs, n) {
      assert IsNewest(cursors, init, n) <==> IsNewest(cursors, cs, n);
    }
  }

  /** The position pre-check passes exactly the batches in which no candidate that is newest of its
      source contradicts the stored head or an earlier candidate. */
  lemma {:induction false} PositionsVerdict(cursors: Cursors, cs: seq<Candidate>)
    ensures Simulate(cursors, cs).Ok? <==> PositionsAgree(cursors, cs)
    ensures Simulate(cursors, cs).Ok? ==> Stands(cursors, cs, Simulate(cursors, cs).value)
  {
    if |cs| == 0 {
      forall a ensures !Mentions(cs, a) {
      }
    } else {
      PositionsVerdict(cursors, cs[..|cs| - 1]);
      PositionsAgreeNext(cursors, cs);
      hide PositionsAgree, PositionAgrees, Stands;
      var before := Simulate(cursors, cs[..|cs| - 1]);
      if before.Ok? {
        LastAgreesIff(cursors, cs, before.value);
        if SimulateOne(before.value, cs[|cs| - 1]).Ok? {
          StandsNext(cursors, cs, before.value);
        }
      }
    }
  }

  // ---- capacity ----

  /** The ids that would be stored after the batch: pending, dead, and those it brings. */
  function StoredAfter(s: State, cs: seq<Candidate>): set<string> {
    s.pending.entries.Keys + s.dead.entries.Keys
    + set c | c in cs && c.event.eventId !in s.dispatched.entries :: c.event.eventId
  }

  /** The sources that would have a head after the batch, events known before bringing none. */
  function SourcesAfter(s: State, cs: seq<Candidate>): set<Address> {
    s.cursors.Keys
    + set c | c in cs && c.event.eventId !in s.pending.entries && c.event.eventId !in s.dead.entries
              && c.event.eventId !in s.dispatched.entries :: c.source
  }

  predicate RecordsExceed(l: Limits, s: State, cs: seq<Candidate>) {
    l.maxRecords.Some? && |StoredAfter(s, cs)| > l.maxRecords.value
  }

  predicate SourcesExceed(l: Limits, s: State, cs: seq<Candidate>) {
    l.maxSources.Some? && |SourcesAfter(s, cs)| > l.maxSources.value
  }

  lemma DisjointCount<T>(a: set<T>, b: set<T>)
    requires a !! b
    ensures |a + b| == |a| + |b|
  {
  }

  lemma StoredIsOldAndNew(s: State, cs: seq<Candidate>)
    ensures StoredAfter(s, cs) == s.pending.entries.Keys + s.dead.entries.Keys + NewRecordIds(s, cs)
    ensures s.pending.entries.Keys + s.dead.entries.Keys !! NewRecordIds(s, cs)
  {
    forall id ensures id in StoredAfter(s, cs) <==>
        id in s.pending.entries || id in s.dead.entries || id in NewRecordIds(s, cs) {
    }
  }

  lemma RecordsCounted(l: Limits, s: State, cs: seq<Candidate>)
    requires StorageInv(l, s)
    ensures |StoredAfter(s, cs)| == s.pending.Size() + s.dead.Size() + |NewRecordIds(s, cs)|
  {
    StoredCount(l, s);
    StoredIsOldAndNew(s, cs);
    hide StorageInv, StoredAfter, NewRecordIds;
    DisjointCount(s.pending.entries.Keys + s.dead.entries.Keys, NewRecordIds(s, cs));
  }

  lemma SourcesCounted(s: State, cs: seq<Candidate>)
    ensures |SourcesAfter(s, cs)| == |s.cursors| + |NewSources(s, cs)|
  {
    assert SourcesAfter(s, cs) == s.cursors.Keys + NewSources(s, cs);
    DisjointCount(s.cursors.Keys, NewSources(s, cs));
    assert |s.cursors| == |s.cursors.Keys|;
  }

  lemma CapacityVerdict(l: Limits, s: State, cs: seq<Candidate>)
    requires StorageInv(l, s)
    ensures CapacityPrecheck(l, s, cs)
         == if RecordsExceed(l, s, cs) then Some(RecordCapacity)
            else if SourcesExceed(l, s, cs) then Some(SourceCapacity) else None
  {
    RecordsCounted(l, s, cs);
    SourcesCounted(s, cs);
    hide StorageInv, StoredAfter, SourcesAfter, NewRecordIds, NewSources;
  }

  lemma OneIsNoCapacityError(l: Limits, s: State, c: Candidate)
    ensures AddOne(l, s, c).Err? ==> AddOne(l, s, c).error !in {RecordCapacity, SourceCapacity}
  {
  }

  lemma {:induction false} LoopIsNoCapacityError(l: Limits, s: State, cs: seq<Candidate>)
    ensures AddLoop(l, s, cs).error !in {Some(RecordCapacity), Some(SourceCapacity)}
  {
    if |cs| > 0 {
      LoopIsNoCapacityError(l, s, cs[..|cs| - 1]);
      OneIsNoCapacityError(l, AddLoop(l, s, cs[..|cs| - 1]).state, cs[|cs| - 1]);
      hide AddOne;
    }
  }

  lemma {:induction false} ReceiptErrors(s: State, cs: seq<Candidate>)
    ensures ReceiptPrecheck(s, cs) in {None, Some(SourceCollision), Some(ReceiptChanged)}
  {
    if |cs| > 0 {
      ReceiptErrors(s, cs[..|cs| - 1]);
    }
  }

  lemma {:induction false} PositionErrors(cursors: Cursors, cs: seq<Candidate>)
    ensures Simulate(cursors, cs).Err? ==> Simulate(cursors, cs).error in {CommitSizeMismatch, PositionOwned}
  {
    if |cs| > 0 {
      PositionErrors(cursors, cs[..|cs| - 1]);
    }
  }

  /** The pre-checks pass exactly when receipts and positions agree and the batch fits. */
  lemma PrecheckVerdict(l: Limits, s: State, cs: seq<Candidate>)
    requires StorageInv(l, s)
    ensures Precheck(l, s, cs).None? <==>
            ReceiptsAgree(s, cs) && PositionsAgree(s.cursors, cs)
            && !RecordsExceed(l, s, cs) && !SourcesExceed(l, s, cs)
    ensures Precheck(l, s, cs) == Some(RecordCapacity) <==>
            ReceiptsAgree(s, cs) && PositionsAgree(s.cursors, cs) && RecordsExceed(l, s, cs)
    ensures Precheck(l, s, cs) == Some(SourceCapacity) <==>
            ReceiptsAgree(s, cs) && PositionsAgree(s.cursors, cs)
            && !RecordsExceed(l, s, cs) && SourcesExceed(l, s, cs)
  {
    ReceiptsVerdict(s, cs);
    PositionsVerdict(s.cursors, cs);
    CapacityVerdict(l, s, cs);
    ReceiptErrors(s, cs);
    PositionErrors(s.cursors, cs);
    hide StorageInv, ReceiptPrecheck, Simulate, CapacityPrecheck, ReceiptsAgree, PositionsAgree, Stands;
    hide RecordsExceed, SourcesExceed;
  }

  /** `add` is refused for a capacity exactly when receipts and positions agree and the distinct ids,
      or the distinct sources, would exceed their limit; then nothing has changed. */
  lemma CapacityRefusedIff(l: Limits, s: State, cs: seq<Candidate>)
    requires StorageInv(l, s)
    ensures Add(l, s, cs).error == Some(RecordCapacity) <==>
            && ReceiptsAgree(s, cs) && PositionsAgree(s.cursors, cs)
            && l.maxRecords.Some? && |StoredAfter(s, cs)| > l.maxRecords.value
    ensures Add(l, s, cs).error == Some(SourceCapacity) <==>
            && ReceiptsAgree(s, cs) && PositionsAgree(s.cursors, cs)
            && !(l.maxRecords.Some? && |StoredAfter(s, cs)| > l.maxRecords.value)
            && l.maxSources.Some? && |SourcesAfter(s, cs)| > l.maxSources.value
    ensures Add(l, s, cs).error in {Some(RecordCapacity), Some(SourceCapacity)} ==> Add(l, s, cs).state == s
  {
    PrecheckVerdict(l, s, cs);
    LoopIsNoCapacityError(l, s, cs);
    hide StorageInv, Precheck, AddLoop, ReceiptsAgree, PositionsAgree, StoredAfter, SourcesAfter;
  }

  /** `add` succeeds exactly when receipts and positions agree, the batch fits, and no candidate
      meets a failing guard at the heads its predecessors leave. */
  lemma AddSucceedsIff(l: Limits, s: State, cs: seq<Candidate>)
    requires ValidLimits(l) && StorageInv(l, s) && HasHeads(s)
    ensures Add(l, s, cs).error.None? <==>
            && ReceiptsAgree(s, cs) && PositionsAgree(s.cursors, cs)
            && (l.maxRecords.Some? ==> |StoredAfter(s, cs)| <= l.maxRecords.value)
            && (l.maxSources.Some? ==> |SourcesAfter(s, cs)| <= l.maxSources.value)
            && NoneBlocked(s, cs)
  {
    PrecheckVerdict(l, s, cs);
    AddAcceptsIff(l, s, cs);
    hide StorageInv, Precheck, ReceiptsAgree, PositionsAgree, StoredAfter, SourcesAfter, NoneBlocked, HasHeads;
    hide AddLoop;
  }
}
