/** Batches of chain events: in every reachable state a batch of any size, with any repeats, is
    accepted exactly when its records are accepted one by one. */
module PipelineBatches {
  import opened Common
  import opened Outboxes
  import opened OutboxChain
  import opened Projections
  import opened ProjectionProperties
  import opened Pipeline
  import opened PipelineTheorems

  ghost predicate AllFinalized(h: History, items: seq<Item>) {
    forall i :: 0 <= i < |items| ==> ItemFinalized(h, items[i])
  }

  /** The records one by one advance as the whole batch would. */
  lemma {:induction false} EachAdvances(c: Checkpoints, items: seq<Item>)
    requires ProjectEach(c, items).Some?
    ensures ProjectEach(c, items).value == AdvanceAll(c, items)
  {
    if |items| > 0 {
      var init, one := items[..|items| - 1], [items[|items| - 1]];
      EachAdvances(c, init);
      assert items == init + one;
      assert Accepts(AdvanceAll(c, init).checkpoints, one);
      hide Accepts;
      AdvanceConcat(c, init, one);
    }
  }

  lemma FinalizedAreOne(s: System, x: Item, y: Item)
    requires HeadsAreLast(s.outbox.cursors, s.history)
    requires ItemFinalized(s.history, x) && ItemFinalized(s.history, y) && SameKey(x, y)
    ensures SameReceipt(x, y) && x.position == y.position
  {
    hide HeadsAreLast, Finalized, IsProjectable;
    PositionIdentifiesEvent(s.outbox, s.history, x.address, x.event.eventId, x.position, y.event.eventId, y.position);
  }

  /** The item the checkpoint of an address was made from. */
  lemma StoredItem(s: System, a: Address) returns (last: Item)
    requires ProjectionInv(s.history, s.checkpoints, s.log) && a in s.checkpoints
    ensures last.address == a && ItemFinalized(s.history, last)
    ensures s.checkpoints[a] == Checkpoint(last.position, last.event.eventId)
    ensures IsValidCheckpoint(s.checkpoints[a])
  {
    var l := For(a, s.log);
    assert AddressInv(s.history, s.checkpoints, a, l);
    last := l[|l| - 1];
    assert IsProjectable(last);
    hide Finalized;
  }

  lemma FinalizedIsUncontested(s: System, i: Item)
    requires HeadsAreLast(s.outbox.cursors, s.history) && ProjectionInv(s.history, s.checkpoints, s.log)
    requires ItemFinalized(s.history, i)
    ensures IsReadable(s.checkpoints, i) && WatermarkProblem(s.checkpoints, i).None?
  {
    if i.address in s.checkpoints {
      var last := StoredItem(s, i.address);
      hide ProjectionInv, HeadsAreLast, ItemFinalized;
      if SameKey(i, last) {
        FinalizedAreOne(s, i, last);
      }
    }
  }

  /** The state after part of a batch. */
  ghost function After(s: System, items: seq<Item>): System
    requires AdvanceAll(s.checkpoints, items).Advanced?
  {
    var r := AdvanceAll(s.checkpoints, items);
    s.(checkpoints := r.checkpoints, log := s.log + r.applied)
  }

  lemma {:induction false} ForIsInside(a: Address, log: seq<Item>, x: Item)
    requires x in For(a, log)
    ensures x in log && x.address == a
  {
    if |log| > 0 && !(log[|log| - 1].address == a && x == log[|log| - 1]) {
      ForIsInside(a, log[..|log| - 1], x);
    }
  }

  lemma {:induction false} InsideIsFor(a: Address, log: seq<Item>, x: Item)
    requires x in log && x.address == a
    ensures x in For(a, log)
  {
    if x in log[..|log| - 1] {
      InsideIsFor(a, log[..|log| - 1], x);
    }
  }

  lemma {:induction false} AppliedIsInside(c: Checkpoints, items: seq<Item>, x: Item)
    requires AdvanceAll(c, items).Advanced? && x in AdvanceAll(c, items).applied
    ensures x in items
  {
    if |items| > 0 {
      var init := items[..|items| - 1];
      PrefixAdvances(c, items, |items| - 1);
      if x in AdvanceAll(c, init).applied {
        AppliedIsInside(c, init, x);
      }
    }
  }

  lemma LoggedIsCovered(s: System, x: Item)
    requires ProjectionInv(s.history, s.checkpoints, s.log) && x in s.log
    ensures Skips(s.checkpoints, x)
  {
    InsideIsFor(x.address, s.log, x);
    AppliedAreFinalized(s, x.address);
    var l := For(x.address, s.log);
    var i :| 0 <= i < |l| && l[i] == x;
    hide ProjectionInv, Gapless;
    EarlierThanLast(l, i);
  }

  /** A chain event the first n items of a batch have passed was covered before, or is one of them. */
  lemma PassedIsInside(s: System, items: seq<Item>, x: Item)
    requires HeadsAreLast(s.outbox.cursors, s.history) && ProjectionInv(s.history, s.checkpoints, s.log)
    requires AllFinalized(s.history, items) && ItemFinalized(s.history, x)
    requires AdvanceAll(s.checkpoints, items).Advanced? && Skips(AdvanceAll(s.checkpoints, items).checkpoints, x)
    ensures Skips(s.checkpoints, x) || exists k :: 0 <= k < |items| && SameKey(items[k], x)
  {
    AdvanceKeepsInv(s.history, s.checkpoints, s.log, items);
    var after := After(s, items);
    var a := x.address;
    assert IsValidPosition(x.position);
    AppliedAreFinalized(after, a);
    var l := For(a, after.log);
    hide ProjectionInv, HeadsAreLast, Gapless, Finalized, IsProjectable;
    AppliedIsPrefix(s.outbox, s.history, a, l, x.event.eventId, x.position);
    var i :| 0 <= i < |l| && l[i].event.eventId == x.event.eventId && l[i].position == x.position;
    ForIsInside(a, after.log, l[i]);
    if l[i] in s.log {
      LoggedIsCovered(s, l[i]);
    } else {
      AppliedIsInside(s.checkpoints, items, l[i]);
      var k :| 0 <= k < |items| && items[k] == l[i];
      assert SameKey(items[k], x);
    }
  }

  /** Once an item is passed, so is everything before it. */
  lemma PassesEarlier(c: Checkpoints, items: seq<Item>, i: nat, x: Item)
    requires AdvanceAll(c, items).Advanced? && i < |items|
    requires items[i].address == x.address && IsPositionAfter(items[i].position, x.position)
    ensures AdvanceAll(c, items[..i + 1]).Advanced?
    ensures Skips(AdvanceAll(c, items[..i + 1]).checkpoints, x)
  {
    PrefixAdvances(c, items, i + 1);
    AcceptedIsCovered(c, items, i, i + 1);
    hide AdvanceAll;
  }

  /** A chain item behind an earlier item of an advancing batch was covered, or repeats one. */
  lemma BehindIsKnown(s: System, items: seq<Item>, i: nat, x: Item)
    requires HeadsAreLast(s.outbox.cursors, s.history) && ProjectionInv(s.history, s.checkpoints, s.log)
    requires AllFinalized(s.history, items) && ItemFinalized(s.history, x)
    requires AdvanceAll(s.checkpoints, items).Advanced? && i < |items|
    requires items[i].address == x.address && IsPositionAfter(items[i].position, x.position)
    ensures Skips(s.checkpoints, x) || exists k :: 0 <= k <= i && SameKey(items[k], x)
  {
    hide ProjectionInv, HeadsAreLast, ItemFinalized, AdvanceAll, Skips, SameKey, IsPositionAfter;
    PassesEarlier(s.checkpoints, items, i, x);
    assert AllFinalized(s.history, items[..i + 1]);
    PassedIsInside(s, items[..i + 1], x);
  }

  lemma ChainBatchIsInOrder(s: System, items: seq<Item>)
    requires HeadsAreLast(s.outbox.cursors, s.history) && ProjectionInv(s.history, s.checkpoints, s.log)
    requires AllFinalized(s.history, items) && AdvanceAll(s.checkpoints, items).Advanced?
    ensures InOrder(s.checkpoints, items)
  {
    var c := s.checkpoints;
    hide ProjectionInv, HeadsAreLast, ItemFinalized, AdvanceAll, Skips, SameKey, IsPositionAfter;
    forall i, j | 0 <= i < j < |items| && FirstOfItsKey(items, j) && !Skips(c, items[i]) && !Skips(c, items[j])
                  && items[i].address == items[j].address
      ensures !IsPositionAfter(items[i].position, items[j].position)
    {
      if IsPositionAfter(items[i].position, items[j].position) {
        BehindIsKnown(s, items, i, items[j]);
      }
    }
  }

  lemma ChainBatchIsConsistent(s: System, items: seq<Item>)
    requires HeadsAreLast(s.outbox.cursors, s.history) && ProjectionInv(s.history, s.checkpoints, s.log)
    requires AllFinalized(s.history, items)
    ensures Readable(s.checkpoints, items) && MatchesWatermarks(s.checkpoints, items) && ConsistentReceipts(items)
  {
    hide ProjectionInv, HeadsAreLast, WatermarkProblem, IsReadable;
    forall i | 0 <= i < |items|
      ensures IsReadable(s.checkpoints, items[i]) && WatermarkProblem(s.checkpoints, items[i]).None? {
      FinalizedIsUncontested(s, items[i]);
    }
    forall i, j | 0 <= i < j < |items| && SameKey(items[i], items[j]) ensures SameReceipt(items[i], items[j]) {
      FinalizedAreOne(s, items[i], items[j]);
    }
  }

  lemma ChainBatchIff(s: System, items: seq<Item>)
    requires HeadsAreLast(s.outbox.cursors, s.history) && ProjectionInv(s.history, s.checkpoints, s.log)
    requires AllFinalized(s.history, items)
    ensures Accepts(s.checkpoints, items) <==> AdvanceAll(s.checkpoints, items).Advanced?
    ensures Accepts(s.checkpoints, items) <==> ProjectEach(s.checkpoints, items).Some?
  {
    ChainBatchIsConsistent(s, items);
    if AdvanceAll(s.checkpoints, items).Advanced? {
      ChainBatchIsInOrder(s, items);
    }
    assert forall i :: 0 <= i < |items| ==> ItemFinalized(s.history, items[i]) ==> IsProjectable(items[i]);
    hide ProjectionInv, HeadsAreLast, Readable, MatchesWatermarks, ConsistentReceipts, InOrder, ItemFinalized;
    if ProjectEach(s.checkpoints, items).Some? {
      EachAdvances(s.checkpoints, items);
    }
    if Accepts(s.checkpoints, items) {
      OneAtATime(s.checkpoints, items);
    }
  }

  /** In every reachable state, a batch of chain events with any repeats is accepted if and only if
      its records are accepted one by one, which is if and only if it leaves no gap; a batch is
      then never refused for its receipts or its order. */
  lemma BatchIffOneByOne(l: Limits, actions: seq<Action>, items: seq<Item>)
    requires ValidLimits(l) && AllowedRun(l, actions) && AllFinalized(Run(l, actions).history, items)
    ensures var c := Run(l, actions).checkpoints;
            && (Accepts(c, items) <==> ProjectEach(c, items).Some?)
            && (Accepts(c, items) <==> AdvanceAll(c, items).Advanced?)
            && (Accepts(c, items) ==> ProjectEach(c, items) == Some(AdvanceAll(c, items)))
  {
    RunKeepsInv(l, actions);
    var s := Run(l, actions);
    ChainBatchIff(s, items);
    hide Run, AllowedRun, ProjectionInv, Accepts;
    if Accepts(s.checkpoints, items) {
      OneAtATime(s.checkpoints, items);
    }
  }
}
