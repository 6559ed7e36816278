/** Harvests, the dispatcher's queue and the projector together: records published in queue order
    through the projector's sink are never refused, and a drained queue leaves nothing unapplied. */
module SinkDelivery {
  import opened Common
  import opened OrderedMaps
  import opened Outboxes
  import opened OutboxChain
  import opened OutboxProperties
  import opened Projections
  import opened Pipeline
  import opened PipelineTheorems
  import opened WithCommits
  import opened HarvestedBatches
  import opened HarvestedQueues

  function ItemOf(r: Record): Item { Item(r.event, r.position, r.source) }

  function EnvelopeOf(r: Record): Envelope { Envelope(r.event, Some(r.source), Some(r.position)) }

  predicate IsQueued(s: State, a: Address, id: string, p: Position) {
    s.pending.Has(id) && s.pending.entries[id].source == a && s.pending.entries[id].position == p
  }

  ghost predicate Deliverable(s: State) {
    forall id :: id in s.pending.entries ==> IsProjectable(ItemOf(s.pending.entries[id]))
  }

  /** Of one source, the queue holds records in commit order. */
  ghost predicate QueueOrdered(s: State) {
    forall i, j :: 0 <= i < j < |s.pending.order| ==> InCommitOrder(s, s.pending.order[i], s.pending.order[j])
  }

  predicate InCommitOrder(s: State, x: string, y: string) {
    s.pending.Has(x) && s.pending.Has(y) && s.pending.entries[x].source == s.pending.entries[y].source ==>
      IsPositionAfter(s.pending.entries[y].position, s.pending.entries[x].position)
  }

  /** Whatever was committed was applied or still waits in the queue. */
  ghost predicate NothingLost(s: System) {
    forall a, id, p :: Finalized(s.history, a, id, p) ==>
        HasReached(s.checkpoints, a, p) || IsQueued(s.outbox, a, id, p)
  }

  predicate IsReached(s: System, id: string) {
    s.outbox.pending.Has(id) ==>
      HasReached(s.checkpoints, s.outbox.pending.entries[id].source, s.outbox.pending.entries[id].position)
  }

  ghost predicate SinkInv(l: Limits, s: System) {
    && SystemInv(l, s) && WholeCommits(s.history) && OwnedOnce(s.history)
    && s.outbox.dead == Empty()
    && Deliverable(s.outbox) && QueueOrdered(s.outbox) && NothingLost(s)
  }

  /** What `withCommit` and the dispatcher do: add harvests, publish in queue order, acknowledge
      what was published, and report failures short of the attempt ceiling. */
  ghost predicate SinkAllowed(l: Limits, s: System, a: Action) {
    match a
    case AddEvents(cs) => IsHarvest(s.history, cs) && forall x :: 0 <= x < |cs| ==> cs[x].event.eventId != ""
    case Deliver(es, _) => exists i :: IsNext(s, i) && es == [EnvelopeOf(QueuedAt(s.outbox, i))]
    case Acknowledge(ids) => forall id :: id in ids ==> IsReached(s, id)
    case ReportFailure(id, _) => s.outbox.pending.Has(id) ==>
        s.outbox.pending.entries[id].attempts + 1 < l.maxDeliveryAttempts
    case ResetProjection => false
  }

  /** The records before it in the queue were all published. */
  ghost predicate IsNext(s: System, i: int) {
    && 0 <= i < |s.outbox.pending.order| && s.outbox.pending.Has(s.outbox.pending.order[i])
    && forall j :: 0 <= j < i ==> IsReached(s, s.outbox.pending.order[j])
  }

  function QueuedAt(s: State, i: int): Record
    requires 0 <= i < |s.pending.order| && s.pending.Has(s.pending.order[i])
  {
    s.pending.entries[s.pending.order[i]]
  }

  ghost predicate SinkRun(l: Limits, actions: seq<Action>) {
    |actions| > 0 ==>
      && SinkRun(l, actions[..|actions| - 1])
      && SinkAllowed(l, Run(l, actions[..|actions| - 1]), actions[|actions| - 1])
  }

  // ---- publishing the next record ----

  lemma QueuedIsFinalized(l: Limits, s: System, id: string)
    requires SinkInv(l, s) && s.outbox.pending.Has(id)
    ensures var r := s.outbox.pending.entries[id];
            && r.event.eventId == id && Finalized(s.history, r.source, id, r.position)
            && IsProjectable(ItemOf(r)) && IsValidPosition(r.position)
  {
    hide ProjectionInv, WholeCommits, OwnedOnce, NothingLost, QueueOrdered, HeadsAreLast, Finalized;
    assert RecordsFinalized(s.outbox.pending, s.history);
  }

  lemma AfterIsAsymmetric(p: Position, q: Position)
    ensures !(IsPositionAfter(p, q) && IsPositionAfter(q, p)) && !IsPositionAfter(p, p)
  {
  }

  lemma LaterInQueue(s: State, i: int, j: int)
    requires QueueOrdered(s) && 0 <= i < |s.pending.order| && 0 <= j < |s.pending.order|
    ensures i < j ==> InCommitOrder(s, s.pending.order[i], s.pending.order[j])
  {
  }

  lemma NotLater(s: State, i: int, j: int)
    requires QueueOrdered(s) && 0 <= i < |s.pending.order| && 0 <= j < |s.pending.order|
    requires s.pending.Has(s.pending.order[i]) && s.pending.Has(s.pending.order[j])
    requires QueuedAt(s, i).source == QueuedAt(s, j).source
    requires IsPositionAfter(QueuedAt(s, i).position, QueuedAt(s, j).position)
    ensures j < i
  {
    LaterInQueue(s, i, j);
    AfterIsAsymmetric(QueuedAt(s, i).position, QueuedAt(s, j).position);
  }

  /** Everything committed before the next record has been applied. */
  lemma NextIsCaughtUp(l: Limits, s: System, i: int)
    requires SinkInv(l, s) && IsNext(s, i)
    ensures CaughtUpTo(s, QueuedAt(s.outbox, i).source, QueuedAt(s.outbox, i).position)
  {
    var order := s.outbox.pending.order;
    var r := QueuedAt(s.outbox, i);
    assert s.outbox.pending.Valid();
    hide SystemInv, WholeCommits, OwnedOnce, Deliverable, Finalized, QueueOrdered, HasReached, InCommitOrder;
    forall id, q | Finalized(s.history, r.source, id, q) && IsValidPosition(q) && IsPositionAfter(r.position, q)
      ensures HasReached(s.checkpoints, r.source, q) {
      if IsQueued(s.outbox, r.source, id, q) {
        var j :| 0 <= j < |order| && order[j] == id;
        NotLater(s.outbox, i, j);
        assert IsReached(s, order[j]);
      }
    }
  }

  /** An applied record delivered again is skipped. */
  lemma ReachedIsSkipped(l: Limits, s: System, e: Item)
    requires SystemInv(l, s) && ItemFinalized(s.history, e) && IsValidPosition(e.position)
    requires HasReached(s.checkpoints, e.address, e.position)
    ensures Accepts(s.checkpoints, [e]) && AdvanceAll(s.checkpoints, [e]) == Advanced(s.checkpoints, [], 1)
  {
    var a := e.address;
    AppliedAreFinalized(s, a);
    var applied := For(a, s.log);
    var last := applied[|applied| - 1];
    assert s.checkpoints[a] == Checkpoint(last.position, last.event.eventId) && IsValidCheckpoint(s.checkpoints[a]);
    hide ProjectionInv, StorageInv, WithinLimits, RecordsFinalized, ReceiptsFinalized, Gapless;
    if e.position.aggregateVersion == last.position.aggregateVersion {
      PositionIdentifiesEvent(s.outbox, s.history, a, e.event.eventId, e.position, last.event.eventId, last.position);
    }
    hide Finalized, HeadsAreLast;
    SingleIsSkipped(s.checkpoints, e);
  }

  lemma SingleIsSkipped(c: Checkpoints, e: Item)
    requires IsProjectable(e) && IsReadable(c, e) && WatermarkProblem(c, e).None? && Skips(c, e)
    ensures Accepts(c, [e]) && AdvanceAll(c, [e]) == Advanced(c, [], 1)
  {
    assert [e][..0] == [];
    assert AdvanceAll(c, []) == Advanced(c, [], 0);
  }

  /** The next record is accepted, and afterwards it has been applied. */
  lemma NextIsAccepted(l: Limits, s: System, i: int)
    requires SinkInv(l, s) && IsNext(s, i)
    ensures var e := ItemOf(QueuedAt(s.outbox, i));
            && Accepts(s.checkpoints, [e])
            && AdvanceAll(s.checkpoints, [e])
               == if HasReached(s.checkpoints, e.address, e.position) then Advanced(s.checkpoints, [], 1)
                  else Advanced(Apply(s.checkpoints, e), [e], 0)
  {
    var e := ItemOf(QueuedAt(s.outbox, i));
    QueuedIsFinalized(l, s, s.outbox.pending.order[i]);
    hide Accepts, AdvanceAll;
    if HasReached(s.checkpoints, e.address, e.position) {
      ReachedIsSkipped(l, s, e);
    } else {
      NextIsCaughtUp(l, s, i);
      NextItemIsAccepted(s, e);
    }
  }

  // ---- what each step keeps ----

  lemma ApplyKeepsReached(c: Checkpoints, e: Item, a: Address, p: Position)
    requires HasReached(c, a, p) && !HasReached(c, e.address, e.position)
    ensures HasReached(Apply(c, e), a, p)
  {
  }

  lemma ApplyReaches(c: Checkpoints, e: Item)
    ensures HasReached(Apply(c, e), e.address, e.position)
  {
  }

  /** A delivery only moves the checkpoints, and only forward. */
  ghost predicate OnlyReachesMore(s: System, s': System) {
    && s'.outbox == s.outbox && s'.history == s.history
    && forall a, p :: HasReached(s.checkpoints, a, p) ==> HasReached(s'.checkpoints, a, p)
  }

  lemma SingleItem(r: Record)
    requires IsProjectable(ItemOf(r))
    ensures ToItems([EnvelopeOf(r)]) == Ok([ItemOf(r)])
  {
    assert EnvelopeOf(r) == ToEnvelope(ItemOf(r));
    assert [EnvelopeOf(r)][..0] == [];
    assert ToItems([]) == Ok([]);
    var none: seq<Item> := [];
    assert none + [ItemOf(r)] == [ItemOf(r)];
  }

  /** One accepted record as a step of the pipeline. */
  lemma SingleStep(l: Limits, s: System, r: Record, throws: bool)
    requires IsProjectable(ItemOf(r)) && Accepts(s.checkpoints, [ItemOf(r)])
    ensures DeliveryCommits(s, Deliver([EnvelopeOf(r)], throws)) <==> !throws
    ensures var advance := AdvanceAll(s.checkpoints, [ItemOf(r)]);
            Step(l, s, Deliver([EnvelopeOf(r)], throws))
            == if throws then s else s.(checkpoints := advance.checkpoints, log := s.log + advance.applied)
  {
    SingleItem(r);
    hide AdvanceAll, ToItems, IsProjectable;
  }

  lemma AppliedReaches(c: Checkpoints, e: Item)
    requires !HasReached(c, e.address, e.position)
    ensures HasReached(Apply(c, e), e.address, e.position)
    ensures forall a, p :: HasReached(c, a, p) ==> HasReached(Apply(c, e), a, p)
  {
    forall a, p | HasReached(c, a, p) ensures HasReached(Apply(c, e), a, p) {
      ApplyKeepsReached(c, e, a, p);
    }
  }

  lemma DeliverReaches(l: Limits, s: System, i: int, throws: bool)
    requires SinkInv(l, s) && IsNext(s, i)
    ensures var r := QueuedAt(s.outbox, i);
            var s' := Step(l, s, Deliver([EnvelopeOf(r)], throws));
            && OnlyReachesMore(s, s')
            && (!throws ==>
                && DeliveryCommits(s, Deliver([EnvelopeOf(r)], throws))
                && HasReached(s'.checkpoints, r.source, r.position))
  {
    hide SinkInv, Accepts, AdvanceAll, HasReached, IsProjectable, Step, DeliveryCommits, Apply;
    var r := QueuedAt(s.outbox, i);
    QueuedIsFinalized(l, s, s.outbox.pending.order[i]);
    NextIsAccepted(l, s, i);
    SingleStep(l, s, r, throws);
    if !HasReached(s.checkpoints, r.source, r.position) {
      AppliedReaches(s.checkpoints, ItemOf(r));
    }
  }

  lemma MoreReachedLosesNothing(s: System, s': System)
    requires NothingLost(s) && OnlyReachesMore(s, s')
    ensures NothingLost(s')
  {
    hide Finalized, HasReached;
  }

  lemma FromQueueIsFromChain(l: Limits, s: System, i: int)
    requires SinkInv(l, s) && IsNext(s, i)
    ensures FromChain(s.history, EnvelopeOf(QueuedAt(s.outbox, i)))
  {
    QueuedIsFinalized(l, s, s.outbox.pending.order[i]);
  }

  lemma NextIsAllowed(l: Limits, s: System, i: int, throws: bool)
    requires SinkInv(l, s) && IsNext(s, i)
    ensures Allowed(s, Deliver([EnvelopeOf(QueuedAt(s.outbox, i))], throws))
  {
    FromQueueIsFromChain(l, s, i);
    hide FromChain, SinkInv, IsNext;
  }

  lemma DeliverKeepsSink(l: Limits, s: System, i: int, throws: bool)
    requires ValidLimits(l) && SinkInv(l, s) && IsNext(s, i)
    ensures SinkInv(l, Step(l, s, Deliver([EnvelopeOf(QueuedAt(s.outbox, i))], throws)))
  {
    var a := Deliver([EnvelopeOf(QueuedAt(s.outbox, i))], throws);
    NextIsAllowed(l, s, i, throws);
    DeliverReaches(l, s, i, throws);
    hide IsNext, WholeCommits, OwnedOnce, Deliverable, QueueOrdered, Allowed, Step, SystemInv, NothingLost;
    hide OnlyReachesMore;
    StepKeepsInv(l, s, a);
    MoreReachedLosesNothing(s, Step(l, s, a));
    SameOutbox(l, s, a);
  }

  lemma SameOutbox(l: Limits, s: System, a: Action)
    requires a.Deliver?
    ensures Step(l, s, a).outbox == s.outbox && Step(l, s, a).history == s.history
  {
    hide AdvanceAll, ToItems, Accepts;
  }

  // ---- acknowledging ----

  lemma {:induction false} WithoutAt(order: seq<string>, id: string, i: int, j: int) returns (x: int, y: int)
    requires 0 <= i < j < |Without(order, id)|
    ensures 0 <= x < y < |order| && Without(order, id)[i] == order[x] && Without(order, id)[j] == order[y]
  {
    if order[0] == id {
      x, y := WithoutAt(order[1..], id, i, j);
      x, y := x + 1, y + 1;
    } else if i == 0 {
      y := WithoutOne(order[1..], id, j - 1);
      x, y := 0, y + 1;
    } else {
      x, y := WithoutAt(order[1..], id, i - 1, j - 1);
      x, y := x + 1, y + 1;
    }
  }

  lemma {:induction false} WithoutOne(order: seq<string>, id: string, i: int) returns (x: int)
    requires 0 <= i < |Without(order, id)|
    ensures 0 <= x < |order| && Without(order, id)[i] == order[x]
  {
    if order[0] != id && i == 0 {
      x := 0;
    } else {
      x := WithoutOne(order[1..], id, if order[0] == id then i else i - 1);
      x := x + 1;
    }
  }

  lemma DeleteKeepsOrdered(s: State, s': State, id: string)
    requires QueueOrdered(s) && s'.pending == s.pending.Delete(id)
    ensures QueueOrdered(s')
  {
    forall i, j | 0 <= i < j < |s'.pending.order| ensures InCommitOrder(s', s'.pending.order[i], s'.pending.order[j]) {
      var x, y := WithoutAt(s.pending.order, id, i, j);
      assert InCommitOrder(s, s.pending.order[x], s.pending.order[y]);
    }
  }

  lemma DeleteKeepsQueue(s: State, s': State, id: string)
    requires Deliverable(s) && QueueOrdered(s) && s'.pending == s.pending.Delete(id)
    ensures Deliverable(s') && QueueOrdered(s')
  {
    DeleteKeepsOrdered(s, s', id);
    hide QueueOrdered, IsProjectable;
  }

  lemma AckLosesNothing(s: System, after: State, id: string)
    requires NothingLost(s) && IsReached(s, id) && after.pending.entries == s.outbox.pending.entries - {id}
    ensures NothingLost(s.(outbox := after))
    ensures forall x :: IsReached(s, x) ==> IsReached(s.(outbox := after), x)
  {
    hide Finalized, HasReached;
  }

  /** Acknowledging one published record. */
  lemma AckOneKeepsSink(l: Limits, s: System, id: string)
    requires ValidLimits(l) && SinkInv(l, s) && IsReached(s, id)
    ensures SinkInv(l, s.(outbox := MarkOneDispatched(l, s.outbox, id)))
    ensures forall x :: IsReached(s, x) ==> IsReached(s.(outbox := MarkOneDispatched(l, s.outbox, id)), x)
  {
    var after := MarkOneDispatched(l, s.outbox, id);
    assert after.pending == s.outbox.pending.Delete(id) && after.dead == s.outbox.dead.Delete(id);
    assert s.outbox.dead.Delete(id) == Empty();
    hide ProjectionInv, WholeCommits, OwnedOnce, QueueOrdered, Deliverable, NothingLost, Inv, MarkOneDispatched;
    hide IsReached;
    MarkOneDispatchedKeeps(l, s.outbox, s.history, id);
    DeleteKeepsQueue(s.outbox, after, id);
    AckLosesNothing(s, after, id);
  }

  lemma {:induction false} AckKeepsSink(l: Limits, s: System, ids: seq<string>)
    requires ValidLimits(l) && SinkInv(l, s) && forall id :: id in ids ==> IsReached(s, id)
    ensures SinkInv(l, s.(outbox := MarkDispatched(l, s.outbox, ids)))
    ensures forall x :: IsReached(s, x) ==> IsReached(s.(outbox := MarkDispatched(l, s.outbox, ids)), x)
  {
    hide SinkInv, IsReached, MarkOneDispatched;
    if |ids| > 0 {
      var init := ids[..|ids| - 1];
      assert forall id :: id in init ==> id in ids;
      assert ids[|ids| - 1] in ids;
      AckKeepsSink(l, s, init);
      var mid := s.(outbox := MarkDispatched(l, s.outbox, init));
      AckOneKeepsSink(l, mid, ids[|ids| - 1]);
      assert s.(outbox := MarkDispatched(l, s.outbox, ids))
             == mid.(outbox := MarkOneDispatched(l, mid.outbox, ids[|ids| - 1]));
    } else {
      assert s.(outbox := MarkDispatched(l, s.outbox, ids)) == s;
    }
  }

  /** A counted failure short of the ceiling leaves the queue in place. */
  lemma ReportKeepsSink(l: Limits, s: System, id: string, error: string)
    requires ValidLimits(l) && SinkInv(l, s) && SinkAllowed(l, s, ReportFailure(id, error))
    ensures SinkInv(l, s.(outbox := MarkFailed(l, s.outbox, id, error)))
  {
    var after := MarkFailed(l, s.outbox, id, error);
    FailedKeepsItems(l, s.outbox, id, error);
    hide ProjectionInv, WholeCommits, OwnedOnce, QueueOrdered, Deliverable, NothingLost, Inv, MarkFailed, SameItems;
    MarkFailedKeeps(l, s.outbox, s.history, id, error);
    SameItemsKeepQueue(s, after);
  }

  /** The queue holds the same items in the same order; attempts may differ. */
  ghost predicate SameItems(s: State, after: State) {
    && after.pending.order == s.pending.order && after.pending.entries.Keys == s.pending.entries.Keys
    && forall x :: x in s.pending.entries ==> ItemOf(after.pending.entries[x]) == ItemOf(s.pending.entries[x])
  }

  lemma FailedKeepsItems(l: Limits, s: State, id: string, error: string)
    requires s.pending.Has(id) ==> s.pending.entries[id].attempts + 1 < l.maxDeliveryAttempts
    ensures SameItems(s, MarkFailed(l, s, id, error)) && MarkFailed(l, s, id, error).dead == s.dead
  {
  }

  lemma SameItemsKeepQueue(s: System, after: State)
    requires SameItems(s.outbox, after)
    ensures Deliverable(s.outbox) ==> Deliverable(after)
    ensures QueueOrdered(s.outbox) ==> QueueOrdered(after)
    ensures NothingLost(s) ==> NothingLost(s.(outbox := after))
  {
    hide IsProjectable, Finalized, HasReached, IsPositionAfter;
    if QueueOrdered(s.outbox) {
      forall i, j | 0 <= i < j < |after.pending.order|
        ensures InCommitOrder(after, after.pending.order[i], after.pending.order[j]) {
        assert InCommitOrder(s.outbox, s.outbox.pending.order[i], s.outbox.pending.order[j]);
      }
    }
  }

  // ---- adding a harvest ----

  lemma FinalizedAt(h: History, a: Address, id: string, p: Position) returns (i: nat)
    requires Finalized(h, a, id, p)
    ensures OwnerAt(h, a, i, p.commitSequence, id) && Owns(h[a][i], id, p)
  {
    i :| 0 <= i < |h[a]| && Owns(h[a][i], id, p);
  }

  lemma OwnedAtOnePlace(h: History, a: Address, i: int, k: int, b: Address, j: int, m: int, id: string)
    requires OwnedOnce(h) && OwnerAt(h, a, i, k, id) && OwnerAt(h, b, j, m, id)
    ensures a == b && i == j && k == m
  {
  }

  /** One event has one position. */
  lemma OnePosition(h: History, a: Address, id: string, p: Position, b: Address, q: Position)
    requires OwnedOnce(h) && Finalized(h, a, id, p) && Finalized(h, b, id, q)
    ensures a == b && p == q
  {
    var i := FinalizedAt(h, a, id, p);
    var j := FinalizedAt(h, b, id, q);
    OwnedAtOnePlace(h, a, i, p.commitSequence, b, j, q.commitSequence, id);
  }

  /** A position in the grown history is an old one, or belongs to a harvested event. */
  lemma FinalizedAfter(s: State, h: History, es: seq<Enrolled>, s': State, h': History, a: Address, id: string,
                       p: Position)
    requires AllAdded(s, h, es, s', h') && Finalized(h', a, id, p)
    ensures Finalized(h, a, id, p) || CarriesId(es, id)
  {
    var i := FinalizedAt(h', a, id, p);
    OwnersAfter(s, h, es, s', h', a, i, p.commitSequence, id);
    if OwnerAt(h, a, i, p.commitSequence, id) {
      if NotAmong(es, a) {
        assert SameChain(s, h, a, s', h');
      } else {
        var e :| e in es && e.address == a;
        assert ChainAfter(s, h, e, s', h');
      }
      assert h'[a][i] == h[a][i];
    }
  }

  lemma AddedLosesNothing(s: System, es: seq<Enrolled>, s': State, h': History)
    requires NothingLost(s) && AllAdded(s.outbox, s.history, es, s', h') && OwnedOnce(h')
    requires RecordsFinalized(s'.pending, h')
    requires forall id :: id in s.outbox.pending.entries ==>
            s'.pending.Has(id) && s'.pending.entries[id] == s.outbox.pending.entries[id]
    requires forall id :: CarriesId(es, id) ==> s'.pending.Has(id)
    ensures NothingLost(s.(outbox := s', history := h'))
  {
    hide AllAdded, OwnedOnce, Finalized, HasReached, CarriesId;
    forall a, id, p | Finalized(h', a, id, p) ensures HasReached(s.checkpoints, a, p) || IsQueued(s', a, id, p) {
      FinalizedAfter(s.outbox, s.history, es, s', h', a, id, p);
      if CarriesId(es, id) {
        var r := s'.pending.entries[id];
        assert Finalized(h', r.source, id, r.position);
        OnePosition(h', a, id, p, r.source, r.position);
      }
    }
  }

  /** Every new record is of the batch, and not before the head its source had. */
  ghost predicate AboveHeads(s: State, cs: seq<Candidate>) {
    forall x :: 0 <= x < |cs| && cs[x].source in s.cursors ==>
      s.cursors[cs[x].source].aggregateVersion < cs[x].position.aggregateVersion
  }

  lemma OldThenNew(s: State, h: History, cs: seq<Candidate>, now: State, i: int, x: int)
    requires HeadsAreLast(s.cursors, h) && RecordsFinalized(s.pending, h) && s.pending.Valid()
    requires Appended(s, cs, now) && AboveHeads(s, cs) && 0 <= i < |s.pending.order| && 0 <= x < |cs|
    ensures InCommitOrder(now, s.pending.order[i], cs[x].event.eventId)
  {
    var id := s.pending.order[i];
    var r := s.pending.entries[id];
    assert id in s.pending.order;
    assert Finalized(h, r.source, id, r.position);
    FinalizedForgetsLink(h, r.source, id, r.position);
    HeadIsNewest(s, h, r.source, id, Unlinked(r.position));
    assert IsRecordOf(now.pending.entries[cs[x].event.eventId], cs[x]);
  }

  lemma NewThenNew(s: State, cs: seq<Candidate>, now: State, x: int, y: int)
    requires Appended(s, cs, now) && Ascending(cs) && 0 <= x < y < |cs|
    ensures InCommitOrder(now, cs[x].event.eventId, cs[y].event.eventId)
  {
    assert IsRecordOf(now.pending.entries[cs[x].event.eventId], cs[x]);
    assert IsRecordOf(now.pending.entries[cs[y].event.eventId], cs[y]);
  }

  lemma OldThenOld(s: State, cs: seq<Candidate>, now: State, i: int, j: int)
    requires QueueOrdered(s) && s.pending.Valid() && Appended(s, cs, now) && 0 <= i < j < |s.pending.order|
    ensures InCommitOrder(now, s.pending.order[i], s.pending.order[j])
  {
    assert s.pending.order[i] in s.pending.order && s.pending.order[j] in s.pending.order;
    assert InCommitOrder(s, s.pending.order[i], s.pending.order[j]);
  }

  lemma AppendedOrder(s: State, cs: seq<Candidate>, now: State)
    requires Appended(s, cs, now)
    ensures now.pending.order == s.pending.order + IdsOfBatch(cs)
  {
  }

  /** The appended queue is in commit order. */
  lemma AppendedIsOrdered(s: State, h: History, cs: seq<Candidate>, now: State)
    requires HeadsAreLast(s.cursors, h) && RecordsFinalized(s.pending, h) && s.pending.Valid() && QueueOrdered(s)
    requires Appended(s, cs, now) && AboveHeads(s, cs) && Ascending(cs)
    ensures QueueOrdered(now)
  {
    var m := |s.pending.order|;
    hide HeadsAreLast, RecordsFinalized, QueueOrdered, Appended, AboveHeads, Ascending, InCommitOrder;
    AppendedOrder(s, cs, now);
    forall i, j | 0 <= i < j < |now.pending.order|
      ensures InCommitOrder(now, now.pending.order[i], now.pending.order[j]) {
      if j < m {
        OldThenOld(s, cs, now, i, j);
      } else if i < m {
        OldThenNew(s, h, cs, now, i, j - m);
      } else {
        NewThenNew(s, cs, now, i - m, j - m);
      }
    }
    IsOrdered(now);
  }

  lemma IsOrdered(s: State)
    requires forall i, j :: 0 <= i < j < |s.pending.order| ==> InCommitOrder(s, s.pending.order[i], s.pending.order[j])
    ensures QueueOrdered(s)
  {
  }

  // The harvest that `add` took, and what it appended.

  ghost predicate Took(l: Limits, s: System, es: seq<Enrolled>, cs: seq<Candidate>, s': State, h': History) {
    && Separate(es) && (forall i :: 0 <= i < |es| ==> CarriesNew(s.history, es[i]))
    && FirstAbove(s.outbox.cursors, es, |es|)
    && Harvest(ViewsOf(es)) == Ok(cs)
    && AddLoop(l, s.outbox, cs) == AddOutcome(s', None)
    && AllAdded(s.outbox, s.history, es, s', h')
  }

  lemma HarvestTaken(l: Limits, s: System, cs: seq<Candidate>) returns (es: seq<Enrolled>, some: seq<Candidate>)
    requires ValidLimits(l) && Inv(l, s.outbox, s.history) && WholeCommits(s.history) && IsHarvest(s.history, cs)
    requires Precheck(l, s.outbox, cs).None?
    ensures some <= cs
    ensures Took(l, s, es, some, Add(l, s.outbox, cs).state, AddHistory(l, s.outbox, s.history, cs))
  {
    hide Inv, WholeCommits, Precheck, Add, AddHistory, AllAdded, CarriesNew, Harvest, AddLoop;
    var all :| HarvestOf(s.history, all, cs);
    var n := HarvestOutcome(l, s.outbox, s.history, all, cs);
    es := all[..n];
    some := Harvest(ViewsOf(es)).value;
    SomeAreSeparate(all, n);
    assert ViewsOf(es) == ViewsOf(all)[..n];
    HarvestPrefix(ViewsOf(all), n);
    assert InvChain(l, s) by { ChainOfInv(l, s); }
    AboveAreAdded(l, s.outbox, s.history, all, n);
    hide IsAbove;
  }

  ghost predicate InvChain(l: Limits, s: System) { ChainInv(s.outbox, s.history) }

  lemma ChainOfInv(l: Limits, s: System)
    requires Inv(l, s.outbox, s.history)
    ensures InvChain(l, s) && ChainInv(s.outbox, s.history) && HeadsAreLast(s.outbox.cursors, s.history)
    ensures RecordsFinalized(s.outbox.pending, s.history) && s.outbox.pending.Valid()
  {
  }

  /** An event addressed to the candidate's source, at a sequence of its commit. */
  predicate IsEventAt(c: Candidate) {
    && Addressed(c.event) && c.source == SourceOf(c.event)
    && 0 <= c.position.commitSequence < c.position.commitSize
  }

  lemma TookAppends(l: Limits, s: System, es: seq<Enrolled>, cs: seq<Candidate>, s': State, h': History)
    requires Inv(l, s.outbox, s.history) && Took(l, s, es, cs, s', h')
    ensures Appended(s.outbox, cs, s') && Ascending(cs) && AboveHeads(s.outbox, cs)
    ensures forall id :: CarriesId(es, id) ==> s'.pending.Has(id)
    ensures forall x :: 0 <= x < |cs| ==> IsEventAt(cs[x])
  {
    ChainOfInv(l, s);
    hide Inv, ChainInv, HeadsAreLast, RecordsFinalized, ChainAfter, SameChain, Harvest, AddLoop, CarriesNew;
    HarvestIsNew(s.outbox, s.history, es);
    LoopAppends(l, s.outbox, cs);
    CarriedArePending(l, s, es, cs, s', h');
    hide AllAdded, Appended, Ascending, AllNew, CarriesId;
    forall x | 0 <= x < |cs|
      ensures IsEventAt(cs[x])
      ensures cs[x].source in s.outbox.cursors ==>
                s.outbox.cursors[cs[x].source].aggregateVersion < cs[x].position.aggregateVersion {
      var i, k := HarvestedAt(es, s.history, x);
      assert IsAbove(s.outbox.cursors, es[i]);
    }
  }

  lemma CarriedArePending(l: Limits, s: System, es: seq<Enrolled>, cs: seq<Candidate>, s': State, h': History)
    requires Took(l, s, es, cs, s', h') && Appended(s.outbox, cs, s') && ChainInv(s.outbox, s.history)
    ensures forall id :: CarriesId(es, id) ==> s'.pending.Has(id)
  {
    hide ChainInv, ChainAfter, SameChain, Harvest, AddLoop;
    forall id | CarriesId(es, id) ensures s'.pending.Has(id) {
      var i, k :| 0 <= i < |es| && 0 <= k < |es[i].view.pendingEvents| && es[i].view.pendingEvents[k].eventId == id;
      assert CarriesNew(s.history, es[i]);
      NewIsUnknown(s.outbox, s.history, es[i].view.pendingEvents);
      assert IsKnown(s', id) && !IsKnown(s.outbox, id);
    }
  }

  lemma AppendedIsDeliverable(s: State, cs: seq<Candidate>, now: State, h': History)
    requires Deliverable(s) && Appended(s, cs, now) && RecordsFinalized(now.pending, h') && WholeCommits(h')
    requires HeadsAreLast(now.cursors, h') && forall x :: 0 <= x < |cs| ==>
            IsEventAt(cs[x]) && cs[x].event.eventId != ""
    ensures Deliverable(now)
  {
    hide HeadsAreLast, WholeCommits, Finalized, IsProjectable, IsEventAt;
    forall id | id in now.pending.entries ensures IsProjectable(ItemOf(now.pending.entries[id])) {
      if !s.pending.Has(id) {
        var x :| 0 <= x < |cs| && cs[x].event.eventId == id;
        hide Deliverable;
        NewIsProjectable(now, h', cs[x], now.pending.entries[id]);
      }
    }
  }

  lemma NewIsProjectable(now: State, h: History, c: Candidate, r: Record)
    requires HeadsAreLast(now.cursors, h) && WholeCommits(h) && Finalized(h, r.source, c.event.eventId, r.position)
    requires IsRecordOf(r, c) && IsEventAt(c) && c.event.eventId != ""
    ensures IsProjectable(ItemOf(r))
  {
    var i := FinalizedLink(h, r.source, c.event.eventId, r.position);
    CommitEventIsFinalized(now, h, r.source, i, r.position.commitSequence);
    hide HeadsAreLast, WholeCommits, Finalized;
  }

  lemma AddKeepsSink(l: Limits, s: System, cs: seq<Candidate>)
    requires ValidLimits(l) && SinkInv(l, s) && SinkAllowed(l, s, AddEvents(cs))
    ensures Allowed(s, AddEvents(cs)) && SinkInv(l, Step(l, s, AddEvents(cs)))
  {
    ChainOfInv(l, s);
    HarvestIsAllowed(s, cs);
    var s', h' := Add(l, s.outbox, cs).state, AddHistory(l, s.outbox, s.history, cs);
    hide Allowed, Add, AddHistory, ProjectionInv, Deliverable, QueueOrdered, NothingLost, WholeCommits, OwnedOnce, Inv,
         Precheck, HeadsAreLast, RecordsFinalized, ChainInv, IsHarvest;
    if Precheck(l, s.outbox, cs).Some? {
      RejectedKeeps(l, s, cs);
    } else {
      StepKeepsInv(l, s, AddEvents(cs));
      var es, some := HarvestTaken(l, s, cs);
      TookKeepsSink(l, s, es, some, s', h');
    }
  }

  lemma RejectedKeeps(l: Limits, s: System, cs: seq<Candidate>)
    requires Precheck(l, s.outbox, cs).Some?
    ensures Step(l, s, AddEvents(cs)) == s
  {
  }

  lemma HarvestIsAllowed(s: System, cs: seq<Candidate>)
    requires ChainInv(s.outbox, s.history) && IsHarvest(s.history, cs)
    ensures Allowed(s, AddEvents(cs))
  {
    var es :| HarvestOf(s.history, es, cs);
    HarvestHasNoRefresh(s.outbox, s.history, es);
  }

  lemma TookKeepsSink(l: Limits, s: System, es: seq<Enrolled>, cs: seq<Candidate>, s': State, h': History)
    requires SinkInv(l, s) && Took(l, s, es, cs, s', h') && SystemInv(l, s.(outbox := s', history := h'))
    requires forall x :: 0 <= x < |cs| ==> cs[x].event.eventId != ""
    ensures SinkInv(l, s.(outbox := s', history := h'))
  {
    ChainOfInv(l, s);
    ChainOfInv(l, s.(outbox := s', history := h'));
    TookAppends(l, s, es, cs, s', h');
    hide ProjectionInv, Deliverable, QueueOrdered, NothingLost, WholeCommits, OwnedOnce, Inv, HeadsAreLast;
    hide RecordsFinalized;
    hide AllAdded, ChainInv, CarriesNew, FreshCommits, Harvest, AddLoop, FirstAbove, CarriesId, AboveHeads, Ascending;
    hide IsEventAt;
    WholeAfter(s.outbox, s.history, es, s', h');
    HarvestIsFresh(s.history, es);
    LandedOwnedOnce(s.outbox, s.history, es, s', h');
    AppendedIsDeliverable(s.outbox, cs, s', h');
    AppendedIsOrdered(s.outbox, s.history, cs, s');
    AddedLosesNothing(s, es, s', h');
  }

  // ---- whole runs ----

  lemma SinkStepKeeps(l: Limits, s: System, a: Action)
    requires ValidLimits(l) && SinkInv(l, s) && SinkAllowed(l, s, a)
    ensures Allowed(s, a) && SinkInv(l, Step(l, s, a))
  {
    hide SinkInv, Add, MarkDispatched, MarkFailed;
    match a
    case AddEvents(cs) => AddKeepsSink(l, s, cs);
    case Deliver(es, throws) =>
      var i :| IsNext(s, i) && es == [EnvelopeOf(QueuedAt(s.outbox, i))];
      hide IsNext;
      NextIsAllowed(l, s, i, throws);
      DeliverKeepsSink(l, s, i, throws);
    case Acknowledge(ids) => AckKeepsSink(l, s, ids);
    case ReportFailure(id, error) => ReportKeepsSink(l, s, id, error);
  }

  lemma SinkStart(l: Limits)
    ensures SinkInv(l, START)
  {
    EmptyIsValid(l);
  }

  /** Along every run of harvests, in-order publications, acknowledgements of what was published and
      failures short of the ceiling: nothing committed is lost, and the queue is in commit order. */
  lemma {:induction false} SinkRunKeeps(l: Limits, actions: seq<Action>)
    requires ValidLimits(l) && SinkRun(l, actions)
    ensures AllowedRun(l, actions) && SinkInv(l, Run(l, actions))
  {
    hide SinkInv, SinkAllowed, Allowed, Step;
    if |actions| == 0 {
      SinkStart(l);
    } else {
      SinkRunKeeps(l, actions[..|actions| - 1]);
      SinkStepKeeps(l, Run(l, actions[..|actions| - 1]), actions[|actions| - 1]);
    }
  }

  /** No publication is ever refused: in every reachable state the sink accepts the next record,
      and a record whose handler does not throw has been applied afterwards. */
  lemma SinkNeverRefuses(l: Limits, actions: seq<Action>, i: int)
    requires ValidLimits(l) && SinkRun(l, actions) && IsNext(Run(l, actions), i)
    ensures var s := Run(l, actions);
            var a := Deliver([EnvelopeOf(QueuedAt(s.outbox, i))], false);
            && DeliveryCommits(s, a)
            && HasReached(Step(l, s, a).checkpoints, QueuedAt(s.outbox, i).source, QueuedAt(s.outbox, i).position)
  {
    SinkRunKeeps(l, actions);
    hide SinkInv, IsNext, SinkRun, Run;
    DeliverReaches(l, Run(l, actions), i, false);
  }

  // ---- a drained pass ----

  /** A fault-free pass: the queue as it stands, published record by record. */
  ghost function Publications(s: State, n: nat): seq<Action>
    requires n <= |s.pending.order| && s.pending.Valid()
  {
    if n == 0 then [] else
    assert s.pending.order[n - 1] in s.pending.order;
    Publications(s, n - 1) + [Deliver([EnvelopeOf(QueuedAt(s, n - 1))], false)]
  }

  ghost predicate PublishedFirst(s: System, n: nat)
    requires n <= |s.outbox.pending.order|
  {
    forall j :: 0 <= j < n ==> IsReached(s, s.outbox.pending.order[j])
  }

  lemma RunConcat(l: Limits, actions: seq<Action>, a: Action)
    ensures Run(l, actions + [a]) == Step(l, Run(l, actions), a)
    ensures SinkRun(l, actions + [a]) <==> SinkRun(l, actions) && SinkAllowed(l, Run(l, actions), a)
  {
    assert (actions + [a])[..|actions|] == actions;
    hide Step, SinkAllowed;
  }

  lemma {:induction false} PassPublishes(l: Limits, actions: seq<Action>, n: nat)
    requires ValidLimits(l) && SinkRun(l, actions)
    requires Run(l, actions).outbox.pending.Valid() && n <= |Run(l, actions).outbox.pending.order|
    ensures var s := Run(l, actions);
            var longer := actions + Publications(s.outbox, n);
            && SinkRun(l, longer)
            && Run(l, longer).outbox == s.outbox && Run(l, longer).history == s.history
            && PublishedFirst(Run(l, longer), n)
  {
    hide SinkRun, Run, Step, IsReached;
    var s := Run(l, actions);
    if n == 0 {
      assert actions + Publications(s.outbox, 0) == actions;
    } else {
      PassPublishes(l, actions, n - 1);
      var before := actions + Publications(s.outbox, n - 1);
      var a := Deliver([EnvelopeOf(QueuedAt(s.outbox, n - 1))], false);
      assert actions + Publications(s.outbox, n) == before + [a];
      hide Publications, PublishedFirst, SinkAllowed;
      PassPublishesOne(l, before, n - 1);
      RunConcat(l, before, a);
    }
  }

  lemma PassPublishesOne(l: Limits, actions: seq<Action>, i: nat)
    requires ValidLimits(l) && SinkRun(l, actions)
    requires Run(l, actions).outbox.pending.Valid() && i < |Run(l, actions).outbox.pending.order|
    requires PublishedFirst(Run(l, actions), i)
    ensures var s := Run(l, actions);
            && s.outbox.pending.Has(s.outbox.pending.order[i])
            && var a := Deliver([EnvelopeOf(QueuedAt(s.outbox, i))], false);
               && SinkAllowed(l, s, a)
               && Step(l, s, a).outbox == s.outbox && Step(l, s, a).history == s.history
               && PublishedFirst(Step(l, s, a), i + 1)
  {
    hide SinkInv, SinkRun, Run, HasReached, Step, SinkAllowed;
    var s := Run(l, actions);
    assert s.outbox.pending.order[i] in s.outbox.pending.order;
    assert IsNext(s, i);
    SinkRunKeeps(l, actions);
    NextIsSinkAllowed(l, s, i);
    hide IsNext;
    DeliverReaches(l, s, i, false);
  }

  lemma NextIsSinkAllowed(l: Limits, s: System, i: int)
    requires IsNext(s, i)
    ensures SinkAllowed(l, s, Deliver([EnvelopeOf(QueuedAt(s.outbox, i))], false))
  {
    hide IsNext;
  }

  /** A fault-free drained pass, from any reachable state: every publication through the projector's
      sink is accepted, and afterwards every event ever committed has been applied. */
  lemma DrainedPassAppliesAll(l: Limits, actions: seq<Action>, a: Address, id: string, p: Position)
    requires ValidLimits(l) && SinkRun(l, actions) && Finalized(Run(l, actions).history, a, id, p)
    ensures var s := Run(l, actions);
            && s.outbox.pending.Valid()
            && var drained := actions + Publications(s.outbox, |s.outbox.pending.order|);
               SinkRun(l, drained) && HasReached(Run(l, drained).checkpoints, a, p)
  {
    SinkRunKeeps(l, actions);
    var s := Run(l, actions);
    ChainOfInv(l, s);
    var n := |s.outbox.pending.order|;
    PassPublishes(l, actions, n);
    var drained := actions + Publications(s.outbox, n);
    SinkRunKeeps(l, drained);
    AllPublishedIsAllReached(Run(l, drained), a, id, p);
  }

  lemma AllPublishedIsAllReached(s: System, a: Address, id: string, p: Position)
    requires NothingLost(s) && s.outbox.pending.Valid() && PublishedFirst(s, |s.outbox.pending.order|)
    requires Finalized(s.history, a, id, p)
    ensures HasReached(s.checkpoints, a, p)
  {
    hide Finalized, HasReached;
    if IsQueued(s.outbox, a, id, p) {
      var j :| 0 <= j < |s.outbox.pending.order| && s.outbox.pending.order[j] == id;
      assert IsReached(s, s.outbox.pending.order[j]);
    }
  }
}
